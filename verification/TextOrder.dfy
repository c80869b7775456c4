/** Go's order on strings, and sorting by it. */
module TextOrder {
  /** `a < b`, byte by byte. */
  predicate TextLess(a: string, b: string) {
    b != "" && (a == "" || a[0] < b[0] || (a[0] == b[0] && TextLess(a[1..], b[1..])))
  }

  lemma {:induction false} TextLessIrreflexive(a: string)
    ensures !TextLess(a, a)
  {
    if a != "" {
      TextLessIrreflexive(a[1..]);
    }
  }

  lemma {:induction false} TextLessTotal(a: string, b: string)
    ensures a == b || TextLess(a, b) || TextLess(b, a)
  {
    if a != "" && b != "" && a[0] == b[0] {
      TextLessTotal(a[1..], b[1..]);
      assert a == [a[0]] + a[1..] && b == [b[0]] + b[1..];
    }
  }

  lemma {:induction false} TextLessTransitive(a: string, b: string, c: string)
    requires TextLess(a, b) && TextLess(b, c)
    ensures TextLess(a, c)
  {
    if a != "" && a[0] == b[0] && b[0] == c[0] {
      TextLessTransitive(a[1..], b[1..], c[1..]);
    }
  }

  /** `a` is a proper prefix of `b`, or smaller in the first byte in which they differ. */
  ghost predicate LeadsInBytes(a: string, b: string) {
    exists k: nat :: FirstDiffersAt(a, b, k)
  }

  ghost predicate FirstDiffersAt(a: string, b: string, k: nat) {
    k <= |a| && k < |b| && a[..k] == b[..k] && (k == |a| || a[k] < b[k])
  }

  lemma {:induction false} TextLessIff(a: string, b: string)
    ensures TextLess(a, b) <==> LeadsInBytes(a, b)
  {
    if b != "" && (a == "" || a[0] < b[0]) {
      assert FirstDiffersAt(a, b, 0);
    } else if b != "" {
      TextLessIff(a[1..], b[1..]);
      if k: nat :| FirstDiffersAt(a[1..], b[1..], k) && a[0] == b[0] {
        assert a[..k + 1] == [a[0]] + a[1..][..k] && b[..k + 1] == [b[0]] + b[1..][..k];
        assert FirstDiffersAt(a, b, k + 1);
      }
      if k: nat :| FirstDiffersAt(a, b, k) {
        assert a[..k][0] == a[0] && b[..k][0] == b[0];
        assert a[1..][..k - 1] == a[..k][1..] && b[1..][..k - 1] == b[..k][1..];
        assert FirstDiffersAt(a[1..], b[1..], k - 1);
      }
    }
  }

  ghost predicate InTextOrder(names: seq<string>) {
    forall i, j :: 0 <= i < j < |names| ==> TextLess(names[i], names[j])
  }

  /** One insertion of `sort.Strings`. */
  method InsertText(names: seq<string>, name: string) returns (out: seq<string>)
    requires InTextOrder(names) && name !in names
    ensures InTextOrder(out)
    ensures (set p | p in out) == (set p | p in names) + {name}
  {
    var i := |names|;
    while i > 0 && TextLess(name, names[i - 1])
      invariant 0 <= i <= |names|
      invariant forall k :: i <= k < |names| ==> TextLess(name, names[k])
    {
      i := i - 1;
    }
    forall k | 0 <= k < i
      ensures TextLess(names[k], name)
    {
      TextLessTotal(names[i - 1], name);
      if k < i - 1 {
        TextLessTransitive(names[k], names[i - 1], name);
      }
    }
    PutBetween(names, i, name);
    out := names[..i] + [name] + names[i..];
  }

  lemma {:induction false} PutBetween(names: seq<string>, i: nat, name: string)
    requires InTextOrder(names) && i <= |names|
    requires forall k :: 0 <= k < i ==> TextLess(names[k], name)
    requires forall k :: i <= k < |names| ==> TextLess(name, names[k])
    ensures InTextOrder(names[..i] + [name] + names[i..])
    ensures (set p | p in names[..i] + [name] + names[i..]) == (set p | p in names) + {name}
  {
    assert names == names[..i] + names[i..];
    MembersBetween(names[..i], name, names[i..]);
  }

  lemma {:induction false} MembersBetween(a: seq<string>, name: string, b: seq<string>)
    ensures (set p | p in a + [name] + b) == (set p | p in a + b) + {name}
  {
  }

  /** A sorted list is determined by its members. */
  lemma {:induction false} TextOrderIsUnique(a: seq<string>, b: seq<string>)
    requires InTextOrder(a) && InTextOrder(b) && forall x :: x in a <==> x in b
    ensures a == b
  {
    assert a != [] ==> a[0] in b;
    assert b != [] ==> b[0] in a;
    if a != [] {
      FirstIsLeast(a, b[0]);
      FirstIsLeast(b, a[0]);
      if a[0] != b[0] {
        TextLessTransitive(a[0], b[0], a[0]);
        TextLessIrreflexive(a[0]);
      }
      RestHas(a);
      RestHas(b);
      TextOrderIsUnique(a[1..], b[1..]);
      assert a == [a[0]] + a[1..] && b == [b[0]] + b[1..];
    }
  }

  lemma {:induction false} FirstIsLeast(a: seq<string>, x: string)
    requires InTextOrder(a) && x in a
    ensures a[0] == x || TextLess(a[0], x)
  {
  }

  lemma {:induction false} RestHas(a: seq<string>)
    requires InTextOrder(a) && a != []
    ensures InTextOrder(a[1..]) && forall x :: x in a[1..] <==> x in a && x != a[0]
  {
    forall x | x in a[1..] ensures x != a[0] {
      var i :| 0 <= i < |a[1..]| && a[1..][i] == x;
      assert TextLess(a[0], a[i + 1]);
      TextLessIrreflexive(a[0]);
    }
  }
}
