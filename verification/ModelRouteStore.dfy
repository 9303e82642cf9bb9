/**
 The stored route as the source handles it: a JSON value whose keys may be missing or of another type, merged
 over the defaults when it is loaded, changed as a dictionary and saved again.
 */
module ModelRouteStore {
  import opened Wrappers
  import opened ModelRouteModel

  datatype Value =
    | Null
    | Text(text: string)
    | Number(number: int)
    | Flag(flag: bool)
    | List(items: seq<Value>)
    | Object(fields: Dict)

  type Dict = map<string, Value>

  function Get(d: Dict, key: string): Value {
    if key in d then d[key] else Null
  }

  /** Python's truth of a value. */
  predicate Truthy(v: Value) {
    match v
    case Null => false
    case Text(s) => s != ""
    case Number(n) => n != 0
    case Flag(b) => b
    case List(items) => items != []
    case Object(fields) => fields != map[]
  }

  function Or(v: Value, other: Value): Value {
    if Truthy(v) then v else other
  }

  /** What the encrypted column holds: nothing, something that cannot be decrypted or parsed, or a JSON value. */
  datatype Stored = Empty | Unreadable | Holds(value: Value)

  /** The URL validator, and Python's text of a value that is no text. */
  datatype Host = Host(check: UrlCheck, show: Value -> string)

  const MODE := "mode"
  const ACTIVE := "active_profile_id"
  const PROFILES := "profiles"
  const ID := "id"
  const NAME := "name"
  const PROVIDER := "provider"
  const MODEL := "model"
  const BASE_URL := "base_url"
  const API_KEY := "api_key"
  const PLATFORM := "PLATFORM"
  const PERSONAL := "PERSONAL"

  function RouteDict(mode: Value, active: Value, profiles: Value): Dict {
    map[MODE := mode, ACTIVE := active, PROFILES := profiles]
  }

  function ProfileDict(id: Value, name: Value, provider: Value, model: Value, baseUrl: Value, apiKey: Value): Dict {
    map[ID := id, NAME := name, PROVIDER := provider, MODEL := model, BASE_URL := baseUrl, API_KEY := apiKey]
  }

  const DEFAULT: Dict := RouteDict(Text(PLATFORM), Null, List([]))

  /** The single route of the previous release as a route with one profile. */
  function Legacy(d: Dict): Dict {
    var defaults := DefaultsOf(STEPFUN).value;
    var profile := ProfileDict(Text(LEGACY_ID), Text(defaults.name), Text(STEPFUN),
      Or(Get(d, MODEL), Text(defaults.model)), Or(Get(d, BASE_URL), Text(STEPFUN_BASE_URL)), Get(d, API_KEY));
    RouteDict(Text(PERSONAL), Text(LEGACY_ID), List([Object(profile)]))
  }

  function Load(s: Stored): Result<Dict> {
    match s
    case Empty => Ok(DEFAULT)
    case Unreadable => Err(CannotDecrypt)
    case Holds(v) =>
      if !v.Object? then Err(BadFormat)
      else if Get(v.fields, PROFILES).List? then Ok(DEFAULT + v.fields)
      else if Get(v.fields, MODE) == Text(PERSONAL) && Truthy(Get(v.fields, API_KEY)) then Ok(Legacy(v.fields))
      else Ok(DEFAULT)
  }

  function Save(d: Dict): Stored { Holds(Object(d)) }

  // Round trips

  /** A dictionary with the three keys of a route and a list of profiles. */
  predicate WellFormed(d: Dict) {
    MODE in d && ACTIVE in d && Get(d, PROFILES).List?
  }

  lemma KeysDiffer()
    ensures MODE != ACTIVE && MODE != PROFILES && ACTIVE != PROFILES
    ensures ID != NAME && ID != PROVIDER && ID != MODEL && ID != BASE_URL && ID != API_KEY
    ensures NAME != PROVIDER && NAME != MODEL && NAME != BASE_URL && NAME != API_KEY
    ensures PROVIDER != MODEL && PROVIDER != BASE_URL && PROVIDER != API_KEY
    ensures MODEL != BASE_URL && MODEL != API_KEY && BASE_URL != API_KEY
  {
    assert |MODE| == 4 && |ACTIVE| == 17 && |PROFILES| == 8;
    assert |ID| == 2 && |NAME| == 4 && |PROVIDER| == 8 && |MODEL| == 5 && |BASE_URL| == 8 && |API_KEY| == 7;
    assert PROVIDER[0] == 'p' && BASE_URL[0] == 'b';
  }

  lemma MergeOverDefault(d: Dict)
    ensures forall k :: k in d ==> Get(DEFAULT + d, k) == Get(d, k)
    ensures MODE in DEFAULT + d && ACTIVE in DEFAULT + d && PROFILES in DEFAULT + d
    ensures DEFAULT + d == d <==> MODE in d && ACTIVE in d && PROFILES in d
  {
    assert DEFAULT.Keys == {MODE, ACTIVE, PROFILES};
  }

  lemma WellFormedParts(mode: Value, active: Value, items: seq<Value>)
    ensures var d := RouteDict(mode, active, List(items));
      WellFormed(d) && Get(d, MODE) == mode && Get(d, ACTIVE) == active && Get(d, PROFILES) == List(items)
  {
    KeysDiffer();
  }

  /** Whatever is loaded, however few keys the stored object had, is a well-formed route. */
  lemma LoadedIsWellFormed(s: Stored)
    requires Load(s).Ok?
    ensures WellFormed(Load(s).value)
  {
    WellFormedParts(Text(PLATFORM), Null, []);
    if s.Holds? {
      var d := s.value.fields;
      MergeOverDefault(d);
      if !Get(d, PROFILES).List? {
        WellFormedParts(Text(PERSONAL), Text(LEGACY_ID), Legacy(d)[PROFILES].items);
      }
    }
  }

  /** Main result 1: loading a saved dictionary gives it back exactly when it has all the keys of a route. */
  lemma LoadUndoesSaveIff(d: Dict)
    ensures Load(Save(d)) == Ok(d) <==> WellFormed(d)
  {
    MergeOverDefault(d);
    if Load(Save(d)) == Ok(d) { LoadedIsWellFormed(Save(d)); }
  }

  /** Hence whatever can be loaded, an incomplete object or one of the previous release included, survives being
      saved and loaded again. */
  lemma LoadedSurvives(s: Stored)
    requires Load(s).Ok?
    ensures Load(Save(Load(s).value)) == Load(s)
  {
    hide *;
    LoadedIsWellFormed(s);
    LoadUndoesSaveIff(Load(s).value);
  }

  // Requests on a dictionary

  datatype Found = At(index: nat) | Missing | NoObject

  /** The first item with an id; an item that is no object on the way to it raises. */
  function FindItem(items: seq<Value>, id: Value): (f: Found)
    ensures f.At? ==> f.index < |items| && items[f.index].Object?
  {
    if items == [] then Missing
    else if !items[0].Object? then NoObject
    else if Get(items[0].fields, ID) == id then At(0)
    else
      match FindItem(items[1..], id)
      case At(i) => At(i + 1)
      case f => f
  }

  function Items(d: Dict): seq<Value> {
    if Get(d, PROFILES).List? then Get(d, PROFILES).items else []
  }

  function IdValue(id: Option<string>): Value {
    if id.Some? then Text(id.value) else Null
  }

  /** The item found, unless it is an empty object, which counts as nothing. */
  function Existing(items: seq<Value>, f: Found): Option<Dict>
    requires f.At? ==> f.index < |items| && items[f.index].Object?
  {
    if f.At? && items[f.index].fields != map[] then Some(items[f.index].fields) else None
  }

  function Field(existing: Option<Dict>, key: string): Value {
    if existing.Some? then Get(existing.value, key) else Null
  }

  /** `str(value or "")`. */
  function KeyText(h: Host, v: Value): string {
    if !Truthy(v) then "" else if v.Text? then v.text else h.show(v)
  }

  function SavedItem(h: Host, c: Change, d: Defaults, existing: Option<Dict>): Result<Dict> {
    var url := h.check(Either(c.baseUrl, d.baseUrl));
    var key := Either(Strip(c.apiKey), KeyText(h, Field(existing, API_KEY)));
    var name := Or(Text(c.name), Or(Field(existing, NAME), Text(d.name)));
    if url.None? then Err(BadUrl)
    else if key == "" then Err(NoKey)
    else if !name.Text? then Err(Crashed)
    else if Strip(name.text) == "" then Err(NoName)
    else if existing.Some? && ID !in existing.value then Err(Crashed)
    else Ok(ProfileDict(if existing.Some? then existing.value[ID] else Text(c.newId),
      Text(Cut(Strip(name.text))), Text(c.provider), Text(Strip(Either(c.model, d.model))), Text(url.value), Text(key)))
  }

  function UpdateDict(h: Host, d: Dict, c: Change): Result<Dict> {
    if c.mode == Platform then Ok(d[MODE := Text(PLATFORM)][ACTIVE := Null])
    else
      match DefaultsOf(c.provider)
      case None => Err(UnknownProvider)
      case Some(defaults) =>
        var items := Items(d);
        var found := FindItem(items, IdValue(c.profileId));
        if found.NoObject? then Err(Crashed)
        else if found.Missing? && |items| >= MAX_PROFILES then Err(TooManyProfiles)
        else
          match SavedItem(h, c, defaults, Existing(items, found))
          case Err(e) => Err(e)
          case Ok(p) =>
            var placed := if Existing(items, found).Some? then items[found.index := Object(p)] else items + [Object(p)];
            Ok(RouteDict(Text(PERSONAL), p[ID], List(placed)))
  }

  function OtherItems(items: seq<Value>, id: string): seq<Value> {
    if items == [] then []
    else
      (if items[0].Object? && Get(items[0].fields, ID) != Text(id) then [items[0]] else [])
      + OtherItems(items[1..], id)
  }

  function DeleteDict(d: Dict, id: string): Result<Dict> {
    var items := Items(d);
    if exists v :: v in items && !v.Object? then Err(Crashed)
    else
      var rest := OtherItems(items, id);
      if |rest| == |items| then Err(NoSuchProfile)
      else
        var switched := if Get(d, ACTIVE) == Text(id) then d[MODE := Text(PLATFORM)][ACTIVE := Null] else d;
        Ok(switched[PROFILES := List(rest)])
  }

  function ApplyDict(h: Host, d: Dict, op: Op): Result<Dict> {
    match op
    case Update(c) => UpdateDict(h, d, c)
    case Delete(id) => DeleteDict(d, id)
  }

  /** One request: it saves the new route, or reports an error and leaves the stored value alone. */
  function Step(h: Host, s: Stored, op: Op): (Stored, Option<Error>) {
    match Load(s)
    case Err(e) => (s, Some(e))
    case Ok(d) =>
      match ApplyDict(h, d, op)
      case Err(e) => (s, Some(e))
      case Ok(d') => (Save(d'), None)
  }

  datatype ProfileView =
    ProfileView(id: Value, name: Value, provider: Value, model: Value, baseUrl: Value, hasKey: bool)

  datatype View = View(
    mode: Mode, activeId: Value, profiles: seq<ProfileView>, provider: Value, model: Value, baseUrl: Value,
    hasKey: bool)

  predicate Showable(v: Value) {
    v.Object? && ID in v.fields && NAME in v.fields && PROVIDER in v.fields && MODEL in v.fields && BASE_URL in v.fields
  }

  function Shown(v: Value): ProfileView
    requires Showable(v)
  {
    ProfileView(v.fields[ID], v.fields[NAME], v.fields[PROVIDER], v.fields[MODEL], v.fields[BASE_URL],
      Truthy(Get(v.fields, API_KEY)))
  }

  function ShownAll(items: seq<Value>): seq<ProfileView>
    requires forall v :: v in items ==> Showable(v)
  {
    seq(|items|, i requires 0 <= i < |items| => assert items[i] in items; Shown(items[i]))
  }

  /** What the owner sees: the active profile if the mode is personal and the profile exists, else the platform's. */
  function ViewOf(d: Dict, platform: Defaults): Result<View> {
    var items := Items(d);
    var found := if Get(d, MODE) == Text(PERSONAL) then FindItem(items, Get(d, ACTIVE)) else Missing;
    var active := Existing(items, found);
    if exists v :: v in items && !Showable(v) then Err(Crashed)
    else if active.Some? then
      assert items[found.index] in items;
      var p := Shown(items[found.index]);
      Ok(View(Personal, p.id, ShownAll(items), p.provider, p.model, p.baseUrl, p.hasKey))
    else
      Ok(View(Platform, Null, ShownAll(items), Text(PLATFORM), Text(platform.model), Text(platform.baseUrl), false))
  }

  /** The agent row's column and the three requests on it. */
  class AgentModelRoutes {
    var stored: Stored
    const host: Host
    const platform: Defaults

    constructor (s: Stored, host: Host, platform: Defaults)
      ensures stored == s && this.host == host && this.platform == platform
    {
      stored := s;
      this.host, this.platform := host, platform;
    }

    method GetRoute() returns (view: Result<View>)
      ensures view == match Load(stored) case Err(e) => Err(e) case Ok(d) => ViewOf(d, platform)
    {
      var loaded := Load(stored);
      if loaded.Err? { return Err(loaded.error); }
      var route := loaded.value;
      var items := Items(route);
      hide Showable, Shown, FindItem, Items, ShownAll, Load;
      var found := Missing;
      if Get(route, MODE) == Text(PERSONAL) { found := FindItem(items, Get(route, ACTIVE)); }
      var profiles, crashed := ShowProfiles(items);
      if crashed { return Err(Crashed); }
      var active := Existing(items, found);
      if active.Some? {
        assert items[found.index] in items;
        var p := Shown(items[found.index]);
        return Ok(View(Personal, p.id, profiles, p.provider, p.model, p.baseUrl, p.hasKey));
      }
      return Ok(View(Platform, Null, profiles, Text(PLATFORM), Text(platform.model), Text(platform.baseUrl), false));
    }

    method Update(c: Change) returns (error: Option<Error>)
      modifies `stored
      ensures (stored, error) == Step(host, old(stored), Op.Update(c))
    {
      var loaded := Load(stored);
      if loaded.Err? { return Some(loaded.error); }
      var route := loaded.value;
      if c.mode == Platform {
        route := route[MODE := Text(PLATFORM)][ACTIVE := Null];
      } else {
        var known := DefaultsOf(c.provider);
        if known.None? { return Some(UnknownProvider); }
        var items, defaults := Items(route), known.value;
        var found := FindItem(items, IdValue(c.profileId));
        if found.NoObject? { return Some(Crashed); }
        if found.Missing? && |items| >= MAX_PROFILES { return Some(TooManyProfiles); }
        var existing := Existing(items, found);
        var url := host.check(Either(c.baseUrl, defaults.baseUrl));
        if url.None? { return Some(BadUrl); }
        var key := Either(Strip(c.apiKey), KeyText(host, Field(existing, API_KEY)));
        if key == "" { return Some(NoKey); }
        var name := Or(Text(c.name), Or(Field(existing, NAME), Text(defaults.name)));
        if !name.Text? { return Some(Crashed); }
        var resolved := Strip(name.text);
        if resolved == "" { return Some(NoName); }
        if existing.Some? && ID !in existing.value { return Some(Crashed); }
        var id := if existing.Some? then existing.value[ID] else Text(c.newId);
        var model := Strip(Either(c.model, defaults.model));
        var saved := ProfileDict(id, Text(Cut(resolved)), Text(c.provider), Text(model), Text(url.value), Text(key));
        if existing.Some? {
          items := items[found.index := Object(saved)];
        } else {
          items := items + [Object(saved)];
        }
        route := RouteDict(Text(PERSONAL), saved[ID], List(items));
      }
      stored := Save(route);
      return None;
    }

    method Delete(id: string) returns (error: Option<Error>)
      modifies `stored
      ensures (stored, error) == Step(host, old(stored), Op.Delete(id))
    {
      var loaded := Load(stored);
      if loaded.Err? { return Some(loaded.error); }
      var route := loaded.value;
      var profiles, crashed := Others(Items(route), id);
      if crashed { return Some(Crashed); }
      if |profiles| == |Items(route)| { return Some(NoSuchProfile); }
      if Get(route, ACTIVE) == Text(id) {
        route := route[MODE := Text(PLATFORM)][ACTIVE := Null];
      }
      route := route[PROFILES := List(profiles)];
      stored := Save(route);
      return None;
    }
  }

  method ShowProfiles(items: seq<Value>) returns (profiles: seq<ProfileView>, crashed: bool)
    ensures crashed <==> exists v :: v in items && !Showable(v)
    ensures !crashed ==> profiles == ShownAll(items)
  {
    hide Showable, Shown;
    profiles, crashed := [], false;
    for i := 0 to |items|
      invariant forall k: nat :: k < i ==> Showable(items[k])
      invariant |profiles| == i && forall k: nat :: k < i ==> profiles[k] == Shown(items[k])
    {
      if !Showable(items[i]) {
        assert items[i] in items;
        return [], true;
      }
      profiles := profiles + [Shown(items[i])];
    }
    forall v | v in items ensures Showable(v) {}
    assert profiles == ShownAll(items);
  }

  /** The items with another id than `id`, unless one of them is no object. */
  method Others(items: seq<Value>, id: string) returns (others: seq<Value>, crashed: bool)
    ensures crashed <==> exists v :: v in items && !v.Object?
    ensures !crashed ==> others == OtherItems(items, id)
  {
    others, crashed := [], false;
    for i := 0 to |items|
      invariant forall k: nat :: k < i ==> items[k].Object?
      invariant others + OtherItems(items[i..], id) == OtherItems(items, id)
    {
      if !items[i].Object? {
        assert items[i] in items;
        return [], true;
      }
      if Get(items[i].fields, ID) != Text(id) { others := others + [items[i]]; }
      assert items[i..][1..] == items[i + 1..];
    }
  }

  // The typed route behind a dictionary

  function ItemOf(p: Profile): Value {
    Object(ProfileDict(Text(p.id), Text(p.name), Text(p.provider), Text(p.model), Text(p.baseUrl), Text(p.apiKey)))
  }

  function ItemsOf(ps: seq<Profile>): seq<Value> {
    seq(|ps|, i requires 0 <= i < |ps| => ItemOf(ps[i]))
  }

  function ModeText(m: Mode): string { if m.Personal? then PERSONAL else PLATFORM }

  /** The dictionary stands for the typed route; it may hold other keys besides. */
  ghost predicate StandsFor(d: Dict, r: Route) {
    && MODE in d && d[MODE] == Text(ModeText(r.mode))
    && ACTIVE in d && d[ACTIVE] == IdValue(r.activeId)
    && PROFILES in d && d[PROFILES] == List(ItemsOf(r.profiles))
  }

  lemma ProfileParts(id: Value, name: Value, provider: Value, model: Value, baseUrl: Value, apiKey: Value)
    ensures var d := ProfileDict(id, name, provider, model, baseUrl, apiKey);
      && d != map[] && d.Keys == {ID, NAME, PROVIDER, MODEL, BASE_URL, API_KEY}
      && d[ID] == id && d[NAME] == name && d[PROVIDER] == provider
      && d[MODEL] == model && d[BASE_URL] == baseUrl && d[API_KEY] == apiKey
  {
    KeysDiffer();
    var d := ProfileDict(id, name, provider, model, baseUrl, apiKey);
    assert ID in d;
  }

  lemma ItemParts(p: Profile)
    ensures var v := ItemOf(p);
      && Showable(v) && v.fields != map[] && API_KEY in v.fields && ID in v.fields
      && v.fields[ID] == Text(p.id) && v.fields[NAME] == Text(p.name) && v.fields[API_KEY] == Text(p.apiKey)
      && Shown(v) == ProfileView(Text(p.id), Text(p.name), Text(p.provider), Text(p.model), Text(p.baseUrl),
           p.apiKey != "")
  {
    ProfileParts(Text(p.id), Text(p.name), Text(p.provider), Text(p.model), Text(p.baseUrl), Text(p.apiKey));
    hide ProfileDict;
  }

  lemma {:induction false} FindsSame(ps: seq<Profile>, id: Option<string>)
    ensures FindItem(ItemsOf(ps), IdValue(id)) ==
      if Find(ps, id).Some? then At(Find(ps, id).value) else Missing
  {
    if ps != [] {
      ItemParts(ps[0]);
      FindsSame(ps[1..], id);
      assert ItemsOf(ps)[1..] == ItemsOf(ps[1..]);
      hide ItemOf;
    }
  }

  lemma ItemsOfCons(p: Profile, rest: seq<Profile>)
    ensures ItemsOf([p] + rest) == [ItemOf(p)] + ItemsOf(rest)
  {
    hide ItemOf;
  }

  lemma {:induction false} OthersSame(ps: seq<Profile>, id: string)
    ensures OtherItems(ItemsOf(ps), id) == ItemsOf(Without(ps, id))
  {
    if ps != [] {
      ItemParts(ps[0]);
      hide ItemOf, ItemsOf, Shown, Showable;
      OthersSame(ps[1..], id);
      ItemsOfCons(ps[0], ps[1..]);
      assert [ps[0]] + ps[1..] == ps;
      assert ItemsOf(ps)[1..] == ItemsOf(ps[1..]);
      ItemsOfCons(ps[0], Without(ps[1..], id));
      assert [] + Without(ps[1..], id) == Without(ps[1..], id);
    }
  }

  lemma ItemsAreShowable(ps: seq<Profile>)
    ensures forall v :: v in ItemsOf(ps) ==> v.Object? && Showable(v)
  {
    forall v | v in ItemsOf(ps) ensures v.Object? && Showable(v) {
      var i: nat :| i < |ps| && ItemsOf(ps)[i] == v;
      ItemParts(ps[i]);
    }
  }

  /** The profile an update makes is the one the typed update makes. */
  lemma SavesSame(h: Host, r: Route, c: Change, d: Defaults)
    requires DefaultsOf(c.provider) == Some(d)
    requires Find(r.profiles, c.profileId).None? ==> |r.profiles| < MAX_PROFILES
    ensures var k := Find(r.profiles, c.profileId);
      var existing := if k.Some? then Some(ItemOf(r.profiles[k.value]).fields) else None;
      match SavedProfile(h.check, r, c)
      case Err(e) => SavedItem(h, c, d, existing) == Err(e)
      case Ok(p) => SavedItem(h, c, d, existing) == Ok(ItemOf(p).fields)
  {
    var k := Find(r.profiles, c.profileId);
    if k.Some? { ItemParts(r.profiles[k.value]); }
    hide ProfileDict, DefaultsOf, Strip;
    assert d.name != "" by { NamesAreSet(c.provider); }
  }

  lemma NamesAreSet(provider: string)
    ensures DefaultsOf(provider).Some? ==> DefaultsOf(provider).value.name != ""
  {
  }

  lemma PlacedSame(ps: seq<Profile>, k: Option<nat>, p: Profile)
    requires k.Some? ==> k.value < |ps|
    ensures ItemsOf(Placed(ps, k, p)) ==
      if k.Some? then ItemsOf(ps)[k.value := ItemOf(p)] else ItemsOf(ps) + [ItemOf(p)]
  {
    hide ItemOf;
  }

  lemma RouteStands(id: string, ps: seq<Profile>)
    ensures StandsFor(RouteDict(Text(PERSONAL), Text(id), List(ItemsOf(ps))), Route(Personal, Some(id), ps))
  {
    KeysDiffer();
    hide ItemsOf;
  }

  lemma PersonalRefines(h: Host, d: Dict, r: Route, c: Change)
    requires StandsFor(d, r) && c.mode.Personal?
    ensures match Updated(h.check, r, c)
      case Err(e) => UpdateDict(h, d, c) == Err(e)
      case Ok(r') => UpdateDict(h, d, c).Ok? && StandsFor(UpdateDict(h, d, c).value, r')
  {
    hide StandsFor, SavedItem, ItemOf, DefaultsOf, FindItem, Find, RouteDict;
    assert Items(d) == ItemsOf(r.profiles) by { ItemsOfRoute(d, r); }
    var k := Find(r.profiles, c.profileId);
    FindsSame(r.profiles, c.profileId);
    if k.Some? { ItemParts(r.profiles[k.value]); }
    if DefaultsOf(c.provider).Some? && (k.Some? || |r.profiles| < MAX_PROFILES) {
      SavesSame(h, r, c, DefaultsOf(c.provider).value);
      if SavedProfile(h.check, r, c).Ok? {
        var p := SavedProfile(h.check, r, c).value;
        ItemParts(p);
        PlacedSame(r.profiles, k, p);
        RouteStands(p.id, Placed(r.profiles, k, p));
      }
      hide SavedProfile;
    }
  }

  lemma ItemsOfRoute(d: Dict, r: Route)
    requires StandsFor(d, r)
    ensures Items(d) == ItemsOf(r.profiles)
  {
  }

  lemma UpdateRefines(h: Host, d: Dict, r: Route, c: Change)
    requires StandsFor(d, r)
    ensures match Updated(h.check, r, c)
      case Err(e) => UpdateDict(h, d, c) == Err(e)
      case Ok(r') => UpdateDict(h, d, c).Ok? && StandsFor(UpdateDict(h, d, c).value, r')
  {
    KeysDiffer();
    if c.mode.Personal? { PersonalRefines(h, d, r, c); }
    hide SavedProfile, SavedItem, FindItem, ItemsOf, Existing;
  }

  lemma DeleteRefines(d: Dict, r: Route, id: string)
    requires StandsFor(d, r)
    ensures match Removed(r, id)
      case Err(e) => DeleteDict(d, id) == Err(e)
      case Ok(r') => DeleteDict(d, id).Ok? && StandsFor(DeleteDict(d, id).value, r')
  {
    KeysDiffer();
    OthersSame(r.profiles, id);
    ItemsAreShowable(r.profiles);
    hide ItemOf, OtherItems, Without;
  }

  /** The typed route a dictionary stands for, if it stands for one. */
  function RouteOf(d: Dict): Route {
    Route(if Get(d, MODE) == Text(PERSONAL) then Personal else Platform,
      if Get(d, ACTIVE).Text? then Some(Get(d, ACTIVE).text) else None,
      ProfilesOf(Items(d)))
  }

  function ProfilesOf(items: seq<Value>): seq<Profile> {
    seq(|items|, i requires 0 <= i < |items| => ProfileOf(items[i]))
  }

  function TextOf(d: Dict, key: string): string {
    if Get(d, key).Text? then Get(d, key).text else ""
  }

  function ProfileOf(v: Value): Profile {
    var d := if v.Object? then v.fields else map[];
    Profile(TextOf(d, ID), TextOf(d, NAME), TextOf(d, PROVIDER), TextOf(d, MODEL), TextOf(d, BASE_URL),
      TextOf(d, API_KEY))
  }

  lemma ProfileOfItem(p: Profile)
    ensures ProfileOf(ItemOf(p)) == p
  {
    ProfileParts(Text(p.id), Text(p.name), Text(p.provider), Text(p.model), Text(p.baseUrl), Text(p.apiKey));
    hide ProfileDict;
  }

  /** A dictionary stands for at most one typed route. */
  lemma RouteOfStands(d: Dict, r: Route)
    requires StandsFor(d, r)
    ensures RouteOf(d) == r
  {
    assert PERSONAL[1] != PLATFORM[1];
    forall i: nat | i < |r.profiles| ensures ProfilesOf(ItemsOf(r.profiles))[i] == r.profiles[i] {
      ProfileOfItem(r.profiles[i]);
    }
    assert ProfilesOf(ItemsOf(r.profiles)) == r.profiles;
  }

  // Runs

  /** What is stored can be loaded and stands for a route whose parts have the right types and fit together. */
  ghost predicate Inv(s: Stored) {
    Load(s).Ok? && StandsFor(Load(s).value, RouteAt(s)) && RouteInv(RouteAt(s))
  }

  function RouteAt(s: Stored): Route {
    if Load(s).Ok? then RouteOf(Load(s).value) else Route(Platform, None, [])
  }

  ghost predicate FreshId(s: Stored, op: Op) { FreshIn(RouteAt(s), op) }

  /** A request on a stored route does what the typed request does. */
  lemma StepRefines(h: Host, s: Stored, op: Op)
    requires Inv(s)
    ensures var (s', error) := Step(h, s, op);
      match Apply(h.check, RouteAt(s), op)
      case Err(e) => s' == s && error == Some(e)
      case Ok(r') => error == None && Load(s').Ok? && StandsFor(Load(s').value, r') && RouteAt(s') == r'
  {
    var d, r := Load(s).value, RouteAt(s);
    match op {
      case Update(c) => UpdateRefines(h, d, r, c);
      case Delete(id) => DeleteRefines(d, r, id);
    }
    hide UpdateDict, DeleteDict, Updated, Removed, StandsFor, Load, RouteOf;
    if Apply(h.check, r, op).Ok? {
      var d' := ApplyDict(h, d, op).value;
      StandsIsWellFormed(d', Apply(h.check, r, op).value);
      LoadUndoesSaveIff(d');
      RouteOfStands(d', Apply(h.check, r, op).value);
    }
  }

  lemma StandsIsWellFormed(d: Dict, r: Route)
    requires StandsFor(d, r)
    ensures WellFormed(d)
  {
  }

  lemma StepKeepsInv(h: Host, s: Stored, op: Op)
    requires Inv(s) && FreshId(s, op)
    ensures Inv(Step(h, s, op).0)
  {
    hide Step, Apply, RouteAt, Load;
    StepRefines(h, s, op);
    if Apply(h.check, RouteAt(s), op).Ok? { ApplyKeepsInv(h.check, RouteAt(s), op); }
  }

  datatype Trace = Trace(states: seq<Stored>, ops: seq<Op>, outs: seq<Option<Error>>)

  ghost predicate Link(h: Host, tr: Trace, i: nat) {
    && i < |tr.ops| && i < |tr.outs| && i + 1 < |tr.states|
    && FreshId(tr.states[i], tr.ops[i])
    && (tr.states[i + 1], tr.outs[i]) == Step(h, tr.states[i], tr.ops[i])
  }

  /** A run of requests on one agent's route, from whatever the column holds. */
  ghost predicate Run(h: Host, tr: Trace) {
    && |tr.states| == |tr.ops| + 1 && |tr.outs| == |tr.ops|
    && forall i: nat :: i < |tr.ops| ==> Link(h, tr, i)
  }

  predicate TextOrNull(v: Value) { v.Null? || v.Text? }

  /** An agent that never saved a route, or saved one with the previous release: an object without a profile list whose
      key, model and address, where it has them, are texts. */
  predicate Starts(s: Stored) {
    s.Empty? || (s.Holds? && s.value.Object?
      && !Get(s.value.fields, PROFILES).List? && TextOrNull(Get(s.value.fields, API_KEY))
      && TextOrNull(Get(s.value.fields, MODEL)) && TextOrNull(Get(s.value.fields, BASE_URL)))
  }

  lemma DefaultStands()
    ensures StandsFor(DEFAULT, Route(Platform, None, [])) && RouteOf(DEFAULT) == Route(Platform, None, [])
  {
    KeysDiffer();
    assert ItemsOf([]) == [];
    RouteOfStands(DEFAULT, Route(Platform, None, []));
  }

  /** The profile the previous release's route becomes. */
  function LegacyProfile(d: Dict): Profile {
    var defaults := DefaultsOf(STEPFUN).value;
    Profile(LEGACY_ID, defaults.name, STEPFUN, Either(TextOf(d, MODEL), defaults.model),
      Either(TextOf(d, BASE_URL), STEPFUN_BASE_URL), TextOf(d, API_KEY))
  }

  lemma LegacyStands(d: Dict)
    requires TextOrNull(Get(d, API_KEY)) && TextOrNull(Get(d, MODEL)) && TextOrNull(Get(d, BASE_URL))
    requires Truthy(Get(d, API_KEY))
    ensures StandsFor(Legacy(d), Route(Personal, Some(LEGACY_ID), [LegacyProfile(d)]))
    ensures RouteInv(Route(Personal, Some(LEGACY_ID), [LegacyProfile(d)]))
  {
    var p := LegacyProfile(d);
    assert Legacy(d) == RouteDict(Text(PERSONAL), Text(LEGACY_ID), List([ItemOf(p)]));
    assert ItemsOf([p]) == [ItemOf(p)];
    RouteStands(LEGACY_ID, [p]);
    assert |p.name| == 4;
    assert Find([p], Some(LEGACY_ID)) == Some(0);
  }

  lemma StartsWell(s: Stored)
    requires Starts(s)
    ensures Inv(s)
  {
    DefaultStands();
    if s.Holds? && Get(s.value.fields, MODE) == Text(PERSONAL) && Truthy(Get(s.value.fields, API_KEY)) {
      LegacyStands(s.value.fields);
      RouteOfStands(Legacy(s.value.fields), Route(Personal, Some(LEGACY_ID), [LegacyProfile(s.value.fields)]));
    }
    hide Legacy, StandsFor, RouteOf;
  }

  /** Main result 2: whatever the requests, a column that started empty or in the previous format holds at most ten
      complete profiles with distinct ids; personal mode names one of them and platform mode names none. */
  lemma {:induction false} ReachableInv(h: Host, tr: Trace, n: nat)
    requires Run(h, tr) && n < |tr.states| && Starts(tr.states[0])
    ensures Inv(tr.states[n])
  {
    hide Inv, Starts, Step, FreshId;
    if n == 0 {
      StartsWell(tr.states[0]);
    } else {
      assert Link(h, tr, n - 1);
      ReachableInv(h, tr, n - 1);
      StepKeepsInv(h, tr.states[n - 1], tr.ops[n - 1]);
    }
  }

  lemma StepKeepsReadable(h: Host, s: Stored, op: Op)
    ensures var (s', error) := Step(h, s, op);
      && (Load(s').Ok? <==> Load(s).Ok?)
      && (Load(s).Err? ==> s' == s && error == Some(Load(s).error))
  {
    hide UpdateDict, DeleteDict;
    if Load(s).Ok? && ApplyDict(h, Load(s).value, op).Ok? { SavedIsReadable(ApplyDict(h, Load(s).value, op).value); }
  }

  /** Whatever dictionary is saved can be loaded. */
  lemma SavedIsReadable(d: Dict)
    ensures Load(Save(d)).Ok?
  {
  }

  /** Main result 3: a column that cannot be read stays as it is, and every request on it fails, saving a new route
      included; conversely a column that can be read can always be read again. */
  lemma {:induction false} UnreadableForever(h: Host, tr: Trace, n: nat)
    requires Run(h, tr) && n < |tr.states|
    ensures Load(tr.states[n]).Ok? <==> Load(tr.states[0]).Ok?
    ensures Load(tr.states[0]).Err? ==>
      tr.states[n] == tr.states[0] && (n < |tr.outs| ==> tr.outs[n] == Some(Load(tr.states[0]).error))
  {
    hide Load, Step, FreshId;
    if n < |tr.ops| {
      assert Link(h, tr, n);
      StepKeepsReadable(h, tr.states[n], tr.ops[n]);
    }
    if n > 0 {
      assert Link(h, tr, n - 1);
      UnreadableForever(h, tr, n - 1);
      StepKeepsReadable(h, tr.states[n - 1], tr.ops[n - 1]);
    }
  }

  /** Main result 4: a request leaves every profile it does not aim at as it was. */
  lemma OthersUntouched(h: Host, s: Stored, op: Op, p: Profile)
    requires Inv(s) && FreshId(s, op) && !AimsAt(op, p.id)
    requires op.Update? ==> op.change.newId != p.id
    ensures p in RouteAt(Step(h, s, op).0).profiles <==> p in RouteAt(s).profiles
  {
    hide Step, Apply, RouteAt, RouteInv, StandsFor, AimsAt;
    StepRefines(h, s, op);
    if Apply(h.check, RouteAt(s), op).Ok? { ApplyLeavesOthers(h.check, RouteAt(s), op, p); }
  }

  /** Main result 5: a stored key survives every request that neither deletes its profile nor brings a new key. */
  lemma {:induction false} KeySurvives(h: Host, tr: Trace, m: nat, n: nat, id: string, key: string)
    requires Run(h, tr) && m <= n < |tr.states| && Starts(tr.states[0])
    requires HasKey(RouteAt(tr.states[m]), id, key)
    requires forall i: nat :: m <= i < n ==> !Rekeys(tr.ops[i], id)
    ensures HasKey(RouteAt(tr.states[n]), id, key)
  {
    hide Step, Apply, RouteAt, RouteInv, StandsFor, Starts, HasKey, Rekeys;
    if m < n {
      assert Link(h, tr, n - 1);
      KeySurvives(h, tr, m, n - 1, id, key);
      ReachableInv(h, tr, n - 1);
      var s, op := tr.states[n - 1], tr.ops[n - 1];
      StepRefines(h, s, op);
      if Apply(h.check, RouteAt(s), op).Ok? { ApplyKeepsKey(h.check, RouteAt(s), op, id, key); }
    }
  }

  // What the owner sees

  function ProfileViewOf(p: Profile): ProfileView {
    ProfileView(Text(p.id), Text(p.name), Text(p.provider), Text(p.model), Text(p.baseUrl), p.apiKey != "")
  }

  /** The view of a route: every profile as stored, the stored mode, and the active profile's service. */
  ghost predicate Mirrors(v: View, r: Route) {
    && v.mode == r.mode && v.activeId == IdValue(r.activeId) && (v.hasKey <==> r.mode.Personal?)
    && |v.profiles| == |r.profiles|
    && (forall i: nat :: i < |r.profiles| ==> v.profiles[i] == ProfileViewOf(r.profiles[i]))
    && (r.mode.Personal? ==>
          exists p :: p in r.profiles && Some(p.id) == r.activeId
            && (v.provider, v.model, v.baseUrl) == (Text(p.provider), Text(p.model), Text(p.baseUrl)))
  }

  lemma ViewMirrors(d: Dict, r: Route, platform: Defaults)
    requires StandsFor(d, r) && RouteInv(r)
    ensures ViewOf(d, platform).Ok? && Mirrors(ViewOf(d, platform).value, r)
  {
    hide ItemOf, FindItem, Find, DistinctIds, Complete, Showable, Shown;
    ItemsAreShowable(r.profiles);
    FindsSame(r.profiles, r.activeId);
    ModesDiffer();
    forall i: nat | i < |r.profiles| ensures Shown(ItemsOf(r.profiles)[i]) == ProfileViewOf(r.profiles[i]) {
      ItemParts(r.profiles[i]);
    }
    if r.mode.Personal? {
      var k := Find(r.profiles, r.activeId).value;
      ItemParts(r.profiles[k]);
      assert r.profiles[k] in r.profiles && r.profiles[k].apiKey != "" by { CompleteHasKey(r.profiles[k]); }
    }
  }

  lemma ModesDiffer()
    ensures PERSONAL != PLATFORM
  {
    assert PERSONAL[1] != PLATFORM[1];
  }

  lemma CompleteHasKey(p: Profile)
    ensures Complete(p) ==> p.apiKey != ""
  {
  }

  /** The owner's view of a stored route shows what is stored: the fallbacks of the view never apply. */
  lemma ViewFollowsRoute(s: Stored, platform: Defaults)
    requires Inv(s)
    ensures ViewOf(Load(s).value, platform).Ok? && Mirrors(ViewOf(Load(s).value, platform).value, RouteAt(s))
  {
    hide ViewOf, Mirrors, RouteInv, StandsFor, RouteOf;
    ViewMirrors(Load(s).value, RouteAt(s), platform);
  }

  /** Main result 6: after a successful personal update the route names the profile the request named, or a new one,
      with the requested service, the validated address and a key, and the owner's view shows it. */
  lemma UpdateShows(h: Host, s: Stored, c: Change, platform: Defaults)
    requires Inv(s) && FreshId(s, Op.Update(c)) && c.mode.Personal? && Step(h, s, Op.Update(c)).1.None?
    ensures var r, s' := RouteAt(s), Step(h, s, Op.Update(c)).0;
      var known := Find(r.profiles, c.profileId).Some?;
      && Inv(s') && ViewOf(Load(s').value, platform).Ok? && Mirrors(ViewOf(Load(s').value, platform).value, RouteAt(s'))
      && RouteAt(s').mode.Personal? && RouteAt(s').activeId == (if known then c.profileId else Some(c.newId))
      && |RouteAt(s').profiles| == |r.profiles| + (if known then 0 else 1)
      && exists p :: p in RouteAt(s').profiles && Some(p.id) == RouteAt(s').activeId
           && p.provider == c.provider && p.apiKey != "" && (c.baseUrl != "" ==> h.check(c.baseUrl) == Some(p.baseUrl))
  {
    hide Step, RouteAt, StandsFor, ViewOf, Mirrors;
    var r, s' := RouteAt(s), Step(h, s, Op.Update(c)).0;
    StepRefines(h, s, Op.Update(c));
    StepKeepsInv(h, s, Op.Update(c));
    ViewFollowsRoute(s', platform);
    UpdatedHas(h.check, r, c);
  }

  lemma UpdatedHas(check: UrlCheck, r: Route, c: Change)
    requires RouteInv(r) && FreshIn(r, Op.Update(c)) && c.mode.Personal? && Updated(check, r, c).Ok?
    ensures var r' := Updated(check, r, c).value;
      var known := Find(r.profiles, c.profileId).Some?;
      && r'.mode.Personal? && r'.activeId == (if known then c.profileId else Some(c.newId))
      && |r'.profiles| == |r.profiles| + (if known then 0 else 1)
      && exists p :: p in r'.profiles && Some(p.id) == r'.activeId
           && p.provider == c.provider && p.apiKey != "" && (c.baseUrl != "" ==> check(c.baseUrl) == Some(p.baseUrl))
  {
    var p := SavedProfile(check, r, c).value;
    PlacedMembers(r.profiles, Find(r.profiles, c.profileId), p);
    assert p in Updated(check, r, c).value.profiles;
    hide DistinctIds, DefaultsOf, Complete, Strip, SavedName;
  }

  // What a request answers and changes

  /** The answer of a request as a typed result. */
  ghost function Outcome(h: Host, s: Stored, op: Op): Result<Route> {
    var (s', error) := Step(h, s, op);
    if error.Some? then Err(error.value) else Ok(RouteAt(s'))
  }

  lemma OutcomeIsTyped(h: Host, s: Stored, op: Op)
    requires Inv(s)
    ensures Outcome(h, s, op) == Apply(h.check, RouteAt(s), op)
    ensures Outcome(h, s, op).Err? ==> Step(h, s, op).0 == s
  {
    hide Step, Apply, RouteAt, Load, StandsFor, RouteInv;
    StepRefines(h, s, op);
  }

  /** Main result 7: of a personal update each error has its exact condition over the request and the stored route, and
      leaves what is stored; otherwise the profile it aims at, or a new one, is stored with its new key where it brings
      one and the old key where it does not. The name falls back in the same way and then to the provider's, the model
      and the address to the provider's. */
  lemma PersonalUpdateAnswers(h: Host, s: Stored, c: Change) returns (key: string, name: string, model: string,
                                                                      url: Option<string>)
    requires Inv(s) && c.mode.Personal?
    ensures UpdateDoes(h.check, RouteAt(s), c, Outcome(h, s, Op.Update(c)), key, name, model, url)
    ensures DefaultsOf(c.provider).Some? ==>
      Brings(h.check, RouteAt(s), c, DefaultsOf(c.provider).value, key, name, model, url)
    ensures Outcome(h, s, Op.Update(c)).Err? ==> Step(h, s, Op.Update(c)).0 == s
  {
    assert DistinctIds(RouteAt(s).profiles);
    hide Inv, Outcome, Step, RouteAt, UpdateDoes, Brings, Updated, DistinctIds;
    OutcomeIsTyped(h, s, Op.Update(c));
    key, name, model, url := UpdateAnswers(h.check, RouteAt(s), c);
  }

  /** Hence a new key takes effect: after the update the active profile has it. */
  lemma NewKeyTakesEffect(h: Host, s: Stored, c: Change)
    requires Inv(s) && FreshId(s, Op.Update(c)) && c.mode.Personal? && Step(h, s, Op.Update(c)).1.None?
    ensures var r := RouteAt(Step(h, s, Op.Update(c)).0);
      r.activeId.Some? && (Strip(c.apiKey) != "" ==> HasKey(r, r.activeId.value, Strip(c.apiKey)))
  {
    hide Inv, Step, RouteAt, Strip, UpdateDoes, Brings;
    var key, name, model, url := PersonalUpdateAnswers(h, s, c);
    ActiveHolds(h.check, RouteAt(s), c, Outcome(h, s, Op.Update(c)), key, name, model, url);
    ProviderIsKnown(h.check, RouteAt(s), c, Outcome(h, s, Op.Update(c)), key, name, model, url);
    BringsNewKey(h.check, RouteAt(s), c, key, name, model, url);
  }

  lemma ProviderIsKnown(check: UrlCheck, r: Route, c: Change, out: Result<Route>, key: string, name: string,
                        model: string, url: Option<string>)
    requires UpdateDoes(check, r, c, out, key, name, model, url) && out.Ok?
    ensures DefaultsOf(c.provider).Some?
  {
    KnownHasDefaults(c.provider);
    hide Known, DefaultsOf, Targets;
  }

  lemma BringsNewKey(check: UrlCheck, r: Route, c: Change, key: string, name: string, model: string,
                     url: Option<string>)
    requires DefaultsOf(c.provider).Some?
    requires Brings(check, r, c, DefaultsOf(c.provider).value, key, name, model, url)
    ensures Strip(c.apiKey) != "" ==> key == Strip(c.apiKey)
  {
    hide Strip, DefaultsOf;
  }

  lemma ActiveHolds(check: UrlCheck, r: Route, c: Change, out: Result<Route>, key: string, name: string, model: string,
                    url: Option<string>)
    requires UpdateDoes(check, r, c, out, key, name, model, url) && out.Ok?
    ensures out.value.activeId.Some? && HasKey(out.value, out.value.activeId.value, key)
  {
    hide Known;
    var r' := out.value;
    if Targets(r, c) {
      var p :| Target(r, c, p);
      var i: nat :| i < |r.profiles| && r.profiles[i] == p;
      assert r'.profiles[i] in r'.profiles;
    } else {
      assert r'.profiles[|r.profiles|] in r'.profiles;
    }
  }

  /** A switch to the platform never fails, and changes nothing but the mode and the active profile. */
  lemma PlatformSwitchAnswers(h: Host, s: Stored, c: Change)
    requires Inv(s) && c.mode.Platform?
    ensures Outcome(h, s, Op.Update(c)) == Ok(Route(Platform, None, RouteAt(s).profiles))
  {
    hide Inv, Outcome, Step, RouteAt;
    OutcomeIsTyped(h, s, Op.Update(c));
  }

  /** A deletion fails exactly for an unknown profile; otherwise it takes out that profile and no other, and switches to
      the platform exactly when it was the active one. */
  lemma DeletionDoes(h: Host, s: Stored, id: string)
    requires Inv(s)
    ensures var r, out := RouteAt(s), Outcome(h, s, Op.Delete(id));
      && (out.Err? <==> forall p :: p in r.profiles ==> p.id != id)
      && (out.Err? ==> out == Err(NoSuchProfile) && Step(h, s, Op.Delete(id)).0 == s)
      && (out.Ok? ==> forall p :: p in out.value.profiles <==> p in r.profiles && p.id != id)
      && (out.Ok? && r.activeId == Some(id) ==> out.value.mode.Platform? && out.value.activeId.None?)
      && (out.Ok? && r.activeId != Some(id) ==> out.value.mode == r.mode && out.value.activeId == r.activeId)
  {
    hide Inv, Outcome, Step, RouteAt, Removed;
    OutcomeIsTyped(h, s, Op.Delete(id));
    DeletionAnswers(RouteAt(s), id);
  }

  /** The previous release's personal route becomes one active profile with its key, and with its model and address
      where it had them; anything else without a profile list becomes the platform's. */
  lemma UpgradeKeeps(d: Dict)
    requires Starts(Holds(Object(d)))
    ensures var r := RouteAt(Holds(Object(d)));
      if Get(d, MODE) == Text(PERSONAL) && TextOf(d, API_KEY) != "" then
        && r.mode.Personal? && r.activeId == Some("legacy") && |r.profiles| == 1
        && var p := r.profiles[0];
           && p.id == "legacy" && p.provider == "STEPFUN" && p.apiKey == TextOf(d, API_KEY)
           && p.model == (if TextOf(d, MODEL) != "" then TextOf(d, MODEL) else "step-3.5-flash")
           && p.baseUrl == (if TextOf(d, BASE_URL) != "" then TextOf(d, BASE_URL) else "https://api.stepfun.com/v1")
      else r == Route(Platform, None, [])
  {
    DefaultStands();
    if Get(d, MODE) == Text(PERSONAL) && Truthy(Get(d, API_KEY)) {
      LegacyStands(d);
      RouteOfStands(Legacy(d), Route(Personal, Some(LEGACY_ID), [LegacyProfile(d)]));
    }
    hide Legacy, RouteOf;
  }
}
