/**
 A student's own model service profiles: what updating, switching and deleting do to a route whose parts have
 the types the source gives them. How routes are stored is in ModelRouteStore.
 */
module ModelRouteModel {
  import opened Wrappers

  datatype Mode = Platform | Personal

  datatype Profile = Profile(
    id: string, name: string, provider: string, model: string, baseUrl: string, apiKey: string)

  datatype Route = Route(mode: Mode, activeId: Option<string>, profiles: seq<Profile>)

  datatype Error =
    | CannotDecrypt | BadFormat | UnknownProvider | TooManyProfiles | BadUrl | NoKey | NoName | NoSuchProfile
    | Crashed

  datatype Result<+T> = Ok(value: T) | Err(error: Error)

  const MAX_PROFILES := 10
  const MAX_NAME := 60
  const LEGACY_ID := "legacy"
  const STEPFUN := "STEPFUN"
  const STEPFUN_BASE_URL := "https://api.stepfun.com/v1"

  datatype Defaults = Defaults(name: string, baseUrl: string, model: string)

  function DefaultsOf(provider: string): Option<Defaults> {
    if provider == "OPENAI" then Some(Defaults("OpenAI", "https://api.openai.com/v1", "gpt-4.1-mini"))
    else if provider == "DEEPSEEK" then Some(Defaults("DeepSeek", "https://api.deepseek.com", "deepseek-v4-flash"))
    else if provider == STEPFUN then Some(Defaults("阶跃星辰", STEPFUN_BASE_URL, "step-3.5-flash"))
    else if provider == "CUSTOM" then Some(Defaults("自定义服务", "", ""))
    else None
  }

  /** What the URL validator makes of a base URL: its normal form, or None when it refuses it. */
  type UrlCheck = string -> Option<string>

  predicate IsSpace(c: char) { c in {' ', '\t', '\n', '\r'} }

  function StripLeft(s: string): string {
    if s != "" && IsSpace(s[0]) then StripLeft(s[1..]) else s
  }

  function StripRight(s: string): string {
    if s != "" && IsSpace(s[|s| - 1]) then StripRight(s[..|s| - 1]) else s
  }

  function Strip(s: string): string { StripRight(StripLeft(s)) }

  function Either(a: string, b: string): string { if a != "" then a else b }

  /** The first profile with an id. */
  function Find(ps: seq<Profile>, id: Option<string>): (k: Option<nat>)
    ensures k.Some? ==> k.value < |ps| && Some(ps[k.value].id) == id
    ensures k.None? <==> forall i: nat :: i < |ps| ==> Some(ps[i].id) != id
  {
    if ps == [] then None
    else if Some(ps[0].id) == id then Some(0)
    else
      match Find(ps[1..], id)
      case None => None
      case Some(i) => Some(i + 1)
  }

  function Without(ps: seq<Profile>, id: string): seq<Profile> {
    if ps == [] then []
    else (if ps[0].id != id then [ps[0]] else []) + Without(ps[1..], id)
  }

  /** The caller's fields; a field left out is "". `newId` is the id a new profile would get. */
  datatype Change = Change(
    mode: Mode, profileId: Option<string>, name: string, provider: string, baseUrl: string, model: string,
    apiKey: string, newId: string)

  function KeyOf(ps: seq<Profile>, k: Option<nat>): string
    requires k.Some? ==> k.value < |ps|
  {
    if k.Some? then ps[k.value].apiKey else ""
  }

  function SavedKey(r: Route, c: Change): string {
    Either(Strip(c.apiKey), KeyOf(r.profiles, Find(r.profiles, c.profileId)))
  }

  function SavedName(r: Route, c: Change, d: Defaults): string {
    var k := Find(r.profiles, c.profileId);
    Strip(Either(c.name, Either(if k.Some? then r.profiles[k.value].name else "", d.name)))
  }

  function Cut(s: string): string { if |s| <= MAX_NAME then s else s[..MAX_NAME] }

  function SavedProfile(check: UrlCheck, r: Route, c: Change): Result<Profile> {
    match DefaultsOf(c.provider)
    case None => Err(UnknownProvider)
    case Some(d) =>
      var k := Find(r.profiles, c.profileId);
      var url := check(Either(c.baseUrl, d.baseUrl));
      if k.None? && |r.profiles| >= MAX_PROFILES then Err(TooManyProfiles)
      else if url.None? then Err(BadUrl)
      else if SavedKey(r, c) == "" then Err(NoKey)
      else if SavedName(r, c, d) == "" then Err(NoName)
      else Ok(Profile(if k.Some? then r.profiles[k.value].id else c.newId,
        Cut(SavedName(r, c, d)), c.provider, Strip(Either(c.model, d.model)), url.value, SavedKey(r, c)))
  }

  function Placed(ps: seq<Profile>, k: Option<nat>, p: Profile): seq<Profile>
    requires k.Some? ==> k.value < |ps|
  {
    if k.Some? then ps[k.value := p] else ps + [p]
  }

  function Updated(check: UrlCheck, r: Route, c: Change): Result<Route> {
    if c.mode == Platform then Ok(r.(mode := Platform, activeId := None))
    else
      match SavedProfile(check, r, c)
      case Err(e) => Err(e)
      case Ok(p) => Ok(Route(Personal, Some(p.id), Placed(r.profiles, Find(r.profiles, c.profileId), p)))
  }

  function Removed(r: Route, id: string): Result<Route> {
    var rest := Without(r.profiles, id);
    if |rest| == |r.profiles| then Err(NoSuchProfile)
    else if r.activeId == Some(id) then Ok(Route(Platform, None, rest))
    else Ok(r.(profiles := rest))
  }

  datatype Op = Update(change: Change) | Delete(id: string)

  function Apply(check: UrlCheck, r: Route, op: Op): Result<Route> {
    match op
    case Update(c) => Updated(check, r, c)
    case Delete(id) => Removed(r, id)
  }

  // What the stored route keeps

  ghost predicate DistinctIds(ps: seq<Profile>) {
    forall i: nat, j: nat :: i < |ps| && j < |ps| && ps[i].id == ps[j].id ==> i == j
  }

  predicate Complete(p: Profile) { p.apiKey != "" && 0 < |p.name| <= MAX_NAME && DefaultsOf(p.provider).Some? }

  ghost predicate RouteInv(r: Route) {
    && |r.profiles| <= MAX_PROFILES
    && DistinctIds(r.profiles)
    && (forall p :: p in r.profiles ==> Complete(p))
    && (r.mode.Personal? <==> r.activeId.Some?)
    && (r.activeId.Some? ==> Find(r.profiles, r.activeId).Some?)
  }

  /** The id drawn for a new profile is not in use. */
  ghost predicate FreshIn(r: Route, op: Op) {
    op.Update? ==> Find(r.profiles, Some(op.change.newId)).None?
  }

  // Deleting

  lemma {:induction false} WithoutExact(ps: seq<Profile>, id: string)
    ensures forall p :: p in Without(ps, id) <==> p in ps && p.id != id
    ensures |Without(ps, id)| <= |ps|
    ensures |Without(ps, id)| == |ps| <==> forall p :: p in ps ==> p.id != id
    ensures |Without(ps, id)| == |ps| ==> Without(ps, id) == ps
  {
    if ps != [] {
      WithoutExact(ps[1..], id);
      assert ps == [ps[0]] + ps[1..];
    }
  }

  lemma ConsDistinct(p: Profile, ps: seq<Profile>)
    ensures DistinctIds([p] + ps) <==> DistinctIds(ps) && forall q :: q in ps ==> q.id != p.id
  {
    var all := [p] + ps;
    if DistinctIds(all) {
      forall i: nat, j: nat | i < |ps| && j < |ps| && ps[i].id == ps[j].id ensures i == j {
        assert all[i + 1].id == all[j + 1].id;
      }
      forall q | q in ps ensures q.id != p.id {
        var i: nat :| i < |ps| && ps[i] == q;
        assert all[i + 1] == q && all[0] == p;
      }
    }
  }

  lemma {:induction false} WithoutKeepsDistinct(ps: seq<Profile>, id: string)
    requires DistinctIds(ps)
    ensures DistinctIds(Without(ps, id))
  {
    hide DistinctIds;
    if ps == [] {
      assert Without(ps, id) == ps;
    } else {
      assert ps == [ps[0]] + ps[1..];
      ConsDistinct(ps[0], ps[1..]);
      WithoutKeepsDistinct(ps[1..], id);
      WithoutExact(ps[1..], id);
      var rest := Without(ps[1..], id);
      ConsDistinct(ps[0], rest);
      assert Without(ps, id) == if ps[0].id != id then [ps[0]] + rest else rest;
    }
  }

  lemma FoundIff(ps: seq<Profile>, id: string)
    ensures Find(ps, Some(id)).Some? <==> exists p :: p in ps && p.id == id
  {
    if p :| p in ps && p.id == id {
      var i: nat :| i < |ps| && ps[i] == p;
    }
  }

  lemma RemovedKeepsInv(r: Route, id: string)
    requires RouteInv(r) && Removed(r, id).Ok?
    ensures RouteInv(Removed(r, id).value)
  {
    WithoutExact(r.profiles, id);
    WithoutKeepsDistinct(r.profiles, id);
    if r.activeId.Some? {
      FoundIff(r.profiles, r.activeId.value);
      FoundIff(Without(r.profiles, id), r.activeId.value);
    }
  }

  // Updating

  lemma SavedIsComplete(check: UrlCheck, r: Route, c: Change)
    requires SavedProfile(check, r, c).Ok?
    ensures Complete(SavedProfile(check, r, c).value)
  {
  }

  lemma PlacedDistinct(ps: seq<Profile>, k: Option<nat>, p: Profile)
    requires DistinctIds(ps)
    requires k.Some? ==> k.value < |ps| && ps[k.value].id == p.id
    requires k.None? ==> Find(ps, Some(p.id)).None?
    ensures DistinctIds(Placed(ps, k, p))
  {
    var out := Placed(ps, k, p);
    forall i: nat, j: nat | i < |out| && j < |out| && out[i].id == out[j].id ensures i == j {
      if i < |ps| { assert out[i].id == ps[i].id; }
      if j < |ps| { assert out[j].id == ps[j].id; }
    }
  }

  lemma PlacedMembers(ps: seq<Profile>, k: Option<nat>, p: Profile)
    requires DistinctIds(ps)
    requires k.Some? ==> k.value < |ps| && ps[k.value].id == p.id
    requires k.None? ==> Find(ps, Some(p.id)).None?
    ensures p in Placed(ps, k, p)
    ensures forall q: Profile :: q.id != p.id ==> (q in Placed(ps, k, p) <==> q in ps)
    ensures forall q: Profile :: q.id == p.id && q in Placed(ps, k, p) ==> q == p
  {
    hide Find;
    var out := Placed(ps, k, p);
    var n := if k.Some? then k.value else |ps|;
    PlacedDistinct(ps, k, p);
    assert out[n] == p;
    forall q: Profile | q.id != p.id ensures q in out <==> q in ps {
      if q in ps {
        var i: nat :| i < |ps| && ps[i] == q;
        assert out[i] == q;
      }
    }
    forall q: Profile | q.id == p.id && q in out ensures q == p {
      var i: nat :| i < |out| && out[i] == q;
      assert i == n;
    }
  }

  lemma UpdatedKeepsInv(check: UrlCheck, r: Route, c: Change)
    requires RouteInv(r) && Updated(check, r, c).Ok? && Find(r.profiles, Some(c.newId)).None?
    ensures RouteInv(Updated(check, r, c).value)
  {
    if c.mode.Personal? {
      var k, p := Find(r.profiles, c.profileId), SavedProfile(check, r, c).value;
      SavedIsComplete(check, r, c);
      PlacedDistinct(r.profiles, k, p);
      PlacedMembers(r.profiles, k, p);
      FoundIff(Placed(r.profiles, k, p), p.id);
      hide Complete, Strip, Cut, SavedName, SavedKey, DistinctIds;
    }
  }

  // What one request leaves alone

  lemma UpdateLeavesOthers(check: UrlCheck, r: Route, c: Change, p: Profile)
    requires DistinctIds(r.profiles) && Find(r.profiles, Some(c.newId)).None? && Updated(check, r, c).Ok?
    requires c.mode.Personal? ==> c.profileId != Some(p.id) && c.newId != p.id
    ensures p in Updated(check, r, c).value.profiles <==> p in r.profiles
  {
    hide DistinctIds, DefaultsOf, Complete, Strip, SavedName, SavedKey;
    if c.mode.Personal? {
      PlacedMembers(r.profiles, Find(r.profiles, c.profileId), SavedProfile(check, r, c).value);
    }
  }

  /** The request aims at the profile with this id. */
  predicate AimsAt(op: Op, id: string) {
    match op
    case Update(c) => c.mode.Personal? && c.profileId == Some(id)
    case Delete(d) => d == id
  }

  /** A request leaves every profile it does not aim at as it was. */
  lemma ApplyLeavesOthers(check: UrlCheck, r: Route, op: Op, p: Profile)
    requires RouteInv(r) && FreshIn(r, op) && Apply(check, r, op).Ok? && !AimsAt(op, p.id)
    requires op.Update? ==> op.change.newId != p.id
    ensures p in Apply(check, r, op).value.profiles <==> p in r.profiles
  {
    hide DistinctIds, Updated;
    match op
    case Update(c) => UpdateLeavesOthers(check, r, c, p);
    case Delete(id) => WithoutExact(r.profiles, id);
  }

  /** The request aims at the profile with this id and either deletes it or brings a new key. */
  predicate Rekeys(op: Op, id: string) {
    AimsAt(op, id) && (op.Update? ==> Strip(op.change.apiKey) != "")
  }

  /** Some profile has this id and this key. */
  ghost predicate HasKey(r: Route, id: string, key: string) {
    exists p :: p in r.profiles && p.id == id && p.apiKey == key
  }

  lemma ApplyKeepsKey(check: UrlCheck, r: Route, op: Op, id: string, key: string)
    requires RouteInv(r) && FreshIn(r, op) && Apply(check, r, op).Ok?
    requires HasKey(r, id, key) && !Rekeys(op, id)
    ensures HasKey(Apply(check, r, op).value, id, key)
  {
    var p :| p in r.profiles && p.id == id && p.apiKey == key;
    FoundIff(r.profiles, id);
    if AimsAt(op, id) {
      var c := op.change;
      var k, q := Find(r.profiles, c.profileId), SavedProfile(check, r, c).value;
      var i: nat :| i < |r.profiles| && r.profiles[i] == p;
      assert k == Some(i);
      PlacedMembers(r.profiles, k, q);
      assert q in Apply(check, r, op).value.profiles && q.id == id && q.apiKey == key;
    } else {
      ApplyLeavesOthers(check, r, op, p);
    }
  }

  lemma ApplyKeepsInv(check: UrlCheck, r: Route, op: Op)
    requires RouteInv(r) && FreshIn(r, op) && Apply(check, r, op).Ok?
    ensures RouteInv(Apply(check, r, op).value)
  {
    match op
    case Update(c) => UpdatedKeepsInv(check, r, c);
    case Delete(id) => RemovedKeepsInv(r, id);
  }

  // What a request answers and changes

  /** `t` is `s` without the blanks around it. */
  ghost predicate Stripped(s: string, t: string) {
    && (t != "" ==> !IsSpace(t[0]) && !IsSpace(t[|t| - 1]))
    && exists i: nat :: StandsAt(s, t, i)
  }

  ghost predicate StandsAt(s: string, t: string, i: nat) {
    i + |t| <= |s| && s[i..i + |t|] == t && forall k :: 0 <= k < i || i + |t| <= k < |s| ==> IsSpace(s[k])
  }

  lemma {:induction false} LeftBlanks(s: string) returns (i: nat)
    ensures i <= |s| && StripLeft(s) == s[i..] && (forall k :: 0 <= k < i ==> IsSpace(s[k]))
    ensures i < |s| ==> !IsSpace(s[i])
  {
    i := 0;
    if s != "" && IsSpace(s[0]) {
      var j := LeftBlanks(s[1..]);
      i := j + 1;
      assert s[1..][j..] == s[i..];
      forall k | 0 <= k < i ensures IsSpace(s[k]) { if k > 0 { assert s[1..][k - 1] == s[k]; } }
    }
  }

  lemma {:induction false} RightBlanks(s: string) returns (j: nat)
    ensures j <= |s| && StripRight(s) == s[..j] && (forall k :: j <= k < |s| ==> IsSpace(s[k]))
    ensures j > 0 ==> !IsSpace(s[j - 1])
  {
    j := |s|;
    if s != "" && IsSpace(s[|s| - 1]) {
      j := RightBlanks(s[..|s| - 1]);
      assert s[..|s| - 1][..j] == s[..j];
    } else {
      assert s[..j] == s;
    }
  }

  lemma StripIsStripped(s: string)
    ensures Stripped(s, Strip(s))
  {
    var i := LeftBlanks(s);
    var j := RightBlanks(s[i..]);
    var t := Strip(s);
    assert t == s[i..i + j];
    forall k | 0 <= k < i || i + |t| <= k < |s| ensures IsSpace(s[k]) {
      if k >= i { assert s[i..][k - i] == s[k]; }
    }
    assert StandsAt(s, t, i);
    hide StripLeft, StripRight, IsSpace;
  }

  /** The profile a personal update aims at. */
  ghost predicate Target(r: Route, c: Change, p: Profile) {
    p in r.profiles && Some(p.id) == c.profileId
  }

  ghost predicate Targets(r: Route, c: Change) { exists p :: Target(r, c, p) }

  /** The services the source knows, with their names and model names. */
  ghost predicate Known(provider: string) { provider in {"OPENAI", "DEEPSEEK", "STEPFUN", "CUSTOM"} }

  /** The first of three texts that is not empty. */
  function FirstOf(a: string, b: string, c: string): string {
    if a != "" then a else if b != "" then b else c
  }

  /** The key, name and model an update brings: its own where given, else the old key and name, else the defaults. */
  ghost predicate Brings(check: UrlCheck, r: Route, c: Change, d: Defaults, key: string, name: string, model: string,
                         url: Option<string>)
  {
    && (Strip(c.apiKey) != "" ==> key == Strip(c.apiKey))
    && (Strip(c.apiKey) == "" ==>
          (forall p :: Target(r, c, p) ==> key == p.apiKey) && (!Targets(r, c) ==> key == ""))
    && (forall p :: Target(r, c, p) ==> name == Strip(FirstOf(c.name, p.name, d.name)))
    && (!Targets(r, c) ==> name == Strip(FirstOf(c.name, d.name, "")))
    && model == Strip(FirstOf(c.model, d.model, ""))
    && url == check(FirstOf(c.baseUrl, d.baseUrl, ""))
  }

  lemma TargetIsFound(r: Route, c: Change)
    requires DistinctIds(r.profiles)
    ensures var k := Find(r.profiles, c.profileId);
      (k.Some? <==> Targets(r, c)) && forall p :: Target(r, c, p) <==> k.Some? && p == r.profiles[k.value]
  {
    var k := Find(r.profiles, c.profileId);
    if k.Some? { assert Target(r, c, r.profiles[k.value]); }
    forall p | Target(r, c, p) ensures k.Some? && p == r.profiles[k.value] {
      var i: nat :| i < |r.profiles| && r.profiles[i] == p;
    }
    hide Find;
  }

  lemma UpdateBrings(check: UrlCheck, r: Route, c: Change, d: Defaults)
    requires DistinctIds(r.profiles) && DefaultsOf(c.provider) == Some(d)
    ensures Brings(check, r, c, d, SavedKey(r, c), SavedName(r, c, d), Strip(Either(c.model, d.model)),
      check(Either(c.baseUrl, d.baseUrl)))
  {
    hide Strip, DefaultsOf, DistinctIds, Find;
    TargetIsFound(r, c);
    hide Target, Targets;
  }

  /** A personal update: which error comes first, and otherwise what the profile is. */
  ghost predicate UpdateDoes(check: UrlCheck, r: Route, c: Change, out: Result<Route>, key: string, name: string,
                             model: string, url: Option<string>)
  {
    var full := !Targets(r, c) && |r.profiles| >= 10;
    && (out == Err(UnknownProvider) <==> !Known(c.provider))
    && (out == Err(TooManyProfiles) <==> Known(c.provider) && full)
    && (out == Err(BadUrl) <==> Known(c.provider) && !full && url.None?)
    && (out == Err(NoKey) <==> Known(c.provider) && !full && url.Some? && key == "")
    && (out == Err(NoName) <==> Known(c.provider) && !full && url.Some? && key != "" && name == "")
    && (out.Ok? <==> Known(c.provider) && !full && url.Some? && key != "" && name != "")
    && (out.Ok? ==> url.Some? && Holds(r, c, out.value,
          Profile(if Targets(r, c) && c.profileId.Some? then c.profileId.value else c.newId,
            if |name| <= 60 then name else name[..60], c.provider, model, url.value, key)))
  }

  /** The new route is personal, with this profile active, in its old place or at the end, and the others as before. */
  ghost predicate Holds(r: Route, c: Change, r': Route, p: Profile) {
    && r'.mode.Personal? && r'.activeId == Some(p.id)
    && |r'.profiles| == |r.profiles| + (if Targets(r, c) then 0 else 1)
    && (forall i: nat :: i < |r.profiles| ==>
          r'.profiles[i] == if Some(r.profiles[i].id) == c.profileId then p else r.profiles[i])
    && (!Targets(r, c) ==> r'.profiles[|r.profiles|] == p)
  }

  lemma KnownHasDefaults(provider: string)
    ensures Known(provider) <==> DefaultsOf(provider).Some?
  {
  }

  /** Each error of a personal update has its exact condition, and a successful one stores the profile it brings: a new
      key replaces the old one. */
  lemma UpdateAnswers(check: UrlCheck, r: Route, c: Change) returns (key: string, name: string, model: string,
                                                                      url: Option<string>)
    requires DistinctIds(r.profiles) && c.mode.Personal?
    ensures UpdateDoes(check, r, c, Updated(check, r, c), key, name, model, url)
    ensures DefaultsOf(c.provider).Some? ==>
      Brings(check, r, c, DefaultsOf(c.provider).value, key, name, model, url)
  {
    key, name, model, url := "", "", "", None;
    KnownHasDefaults(c.provider);
    TargetIsFound(r, c);
    if DefaultsOf(c.provider).Some? {
      var d := DefaultsOf(c.provider).value;
      key, name := SavedKey(r, c), SavedName(r, c, d);
      model, url := Strip(Either(c.model, d.model)), check(Either(c.baseUrl, d.baseUrl));
      UpdateBrings(check, r, c, d);
      hide Known, DefaultsOf, Strip, SavedKey, SavedName, Targets, Target, Brings;
      UpdatePlaces(check, r, c);
    }
    hide Known, DefaultsOf, Strip, SavedKey, SavedName, Targets, Target, Brings, DistinctIds, Holds;
  }

  lemma UpdatePlaces(check: UrlCheck, r: Route, c: Change)
    requires DistinctIds(r.profiles) && c.mode.Personal?
    ensures Updated(check, r, c).Ok? ==>
      Holds(r, c, Updated(check, r, c).value, SavedProfile(check, r, c).value)
  {
    if Updated(check, r, c).Ok? {
      TargetIsFound(r, c);
      var k := Find(r.profiles, c.profileId);
      hide SavedProfile, Target;
      forall i: nat | i < |r.profiles| ensures Some(r.profiles[i].id) == c.profileId <==> k == Some(i) {}
      hide Find, DistinctIds;
    }
  }

  /** A deletion fails exactly for an unknown profile; otherwise it takes out that profile and no other, and switches to
      the platform exactly when it was the active one. */
  lemma DeletionAnswers(r: Route, id: string)
    ensures var out := Removed(r, id);
      && (out == Err(NoSuchProfile) <==> forall p :: p in r.profiles ==> p.id != id)
      && (out.Err? ==> out == Err(NoSuchProfile))
      && (out.Ok? ==> forall p :: p in out.value.profiles <==> p in r.profiles && p.id != id)
      && (out.Ok? && r.activeId == Some(id) ==> out.value.mode.Platform? && out.value.activeId.None?)
      && (out.Ok? && r.activeId != Some(id) ==> out.value.mode == r.mode && out.value.activeId == r.activeId)
  {
    WithoutExact(r.profiles, id);
    hide Without;
  }
}
