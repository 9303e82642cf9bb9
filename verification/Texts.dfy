/** The order of texts by code point. */
module Texts {
  predicate TextLe(a: string, b: string) {
    a == "" || (b != "" && (a[0] < b[0] || (a[0] == b[0] && TextLe(a[1..], b[1..]))))
  }

  lemma {:induction false} TextOrder(a: string, b: string, c: string)
    ensures TextLe(a, b) || TextLe(b, a)
    ensures TextLe(a, b) && TextLe(b, a) ==> a == b
    ensures TextLe(a, b) && TextLe(b, c) ==> TextLe(a, c)
  {
    if a != "" && b != "" {
      TextOrder(a[1..], b[1..], if c == "" then "" else c[1..]);
      if a[0] == b[0] && a[1..] == b[1..] { assert a == [a[0]] + a[1..] == [b[0]] + b[1..] == b; }
    }
  }

  /** `b` goes on where `a` ends, or has the greater letter where they first differ. */
  ghost predicate Precedes(a: string, b: string) {
    a <= b || exists i: nat :: FirstDiffersAt(a, b, i) && a[i] < b[i]
  }

  ghost predicate FirstDiffersAt(a: string, b: string, i: nat) {
    i < |a| && i < |b| && a[..i] == b[..i] && a[i] != b[i]
  }

  lemma DiffersNext(a: string, b: string, i: nat)
    requires a != "" && b != "" && a[0] == b[0]
    ensures FirstDiffersAt(a, b, i + 1) <==> FirstDiffersAt(a[1..], b[1..], i)
  {
    if i < |a| - 1 && i < |b| - 1 {
      assert a[..i + 1] == [a[0]] + a[1..][..i] && b[..i + 1] == [b[0]] + b[1..][..i];
      assert a[..i + 1][1..] == a[1..][..i] && b[..i + 1][1..] == b[1..][..i];
    }
  }

  lemma PrefixNext(a: string, b: string)
    requires a != "" && b != "" && a[0] == b[0]
    ensures a <= b <==> a[1..] <= b[1..]
  {
    assert a == [a[0]] + a[1..] && b == [b[0]] + b[1..];
  }

  lemma PrecedesNext(a: string, b: string)
    requires a != "" && b != "" && a[0] == b[0]
    ensures Precedes(a, b) <==> Precedes(a[1..], b[1..])
  {
    PrefixNext(a, b);
    if i: nat :| FirstDiffersAt(a[1..], b[1..], i) && a[1..][i] < b[1..][i] {
      DiffersNext(a, b, i);
      assert FirstDiffersAt(a, b, i + 1);
    }
    if i: nat :| FirstDiffersAt(a, b, i) && a[i] < b[i] {
      DiffersNext(a, b, i - 1);
      assert FirstDiffersAt(a[1..], b[1..], i - 1);
    }
  }

  lemma PrecedesByHead(a: string, b: string)
    requires a == "" || b == "" || a[0] != b[0]
    ensures Precedes(a, b) <==> a == "" || (b != "" && a[0] < b[0])
  {
    if a != "" && b != "" { assert FirstDiffersAt(a, b, 0); }
  }

  /** The order is the alphabetical one. */
  lemma {:induction false} TextLeIff(a: string, b: string)
    ensures TextLe(a, b) <==> Precedes(a, b)
  {
    hide Precedes;
    if a == "" || b == "" || a[0] != b[0] {
      PrecedesByHead(a, b);
    } else {
      TextLeIff(a[1..], b[1..]);
      PrecedesNext(a, b);
    }
  }
}
