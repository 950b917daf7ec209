/** Sorting strings in code-point order, and why a sorted list of distinct strings is unique. */
module SortedStrings {

  predicate Leq(a: string, b: string) {
    a == "" || (b != "" && (a[0] < b[0] || (a[0] == b[0] && Leq(a[1..], b[1..]))))
  }

  predicate Strict(s: seq<string>) {
    forall i, j | 0 <= i < j < |s| :: s[i] != s[j] && Leq(s[i], s[j])
  }

  ghost predicate Distinct(s: seq<string>) {
    forall i, j | 0 <= i < j < |s| :: s[i] != s[j]
  }

  function Elements(s: seq<string>): set<string> {
    set x <- s
  }

  function Insert(s: seq<string>, x: string): seq<string> {
    if s == [] || Leq(x, s[0]) then [x] + s else [s[0]] + Insert(s[1..], x)
  }

  function Sort(s: seq<string>): seq<string> {
    if s == [] then [] else Insert(Sort(s[1..]), s[0])
  }

  /** The first place where two strings differ. */
  ghost predicate DifferAt(a: string, b: string, k: nat) {
    k < |a| && k < |b| && a[k] < b[k] && a[..k] == b[..k]
  }

  /** Code-point order: a prefix comes first, otherwise the smaller character where they first differ. */
  lemma {:induction false} LeqMeans(a: string, b: string)
    ensures Leq(a, b) <==> a <= b || exists k: nat :: DifferAt(a, b, k)
  {
    if a != "" && b != "" {
      var s, t := a[1..], b[1..];
      LeqMeans(s, t);
      assert a[0] == b[0] ==> (a <= b <==> s <= t);
      if k: nat :| DifferAt(s, t, k) && a[0] == b[0] {
        assert a[..k + 1] == [a[0]] + s[..k] && b[..k + 1] == [b[0]] + t[..k];
        assert DifferAt(a, b, k + 1);
      }
      if k: nat :| DifferAt(a, b, k) && a[0] == b[0] {
        assert k > 0 && s[..k - 1] == a[..k][1..] && t[..k - 1] == b[..k][1..];
        assert DifferAt(s, t, k - 1);
      }
      if a[0] < b[0] {
        assert DifferAt(a, b, 0);
      }
      if k: nat :| DifferAt(a, b, k) && a[0] != b[0] {
        assert k == 0 || a[..k][0] == b[..k][0];
      }
    }
  }

  lemma {:induction false} LeqTotal(a: string, b: string)
    ensures Leq(a, b) || Leq(b, a)
    ensures Leq(a, b) && Leq(b, a) ==> a == b
  {
    if a != "" && b != "" {
      LeqTotal(a[1..], b[1..]);
      assert a == [a[0]] + a[1..] && b == [b[0]] + b[1..];
    }
  }

  lemma {:induction false} LeqTransitive(a: string, b: string, c: string)
    requires Leq(a, b) && Leq(b, c)
    ensures Leq(a, c)
  {
    if a != "" && a[0] == b[0] == c[0] {
      LeqTransitive(a[1..], b[1..], c[1..]);
    }
  }

  lemma {:induction false} InsertStrict(s: seq<string>, x: string)
    requires Strict(s) && x !in s
    ensures Strict(Insert(s, x)) && Elements(Insert(s, x)) == Elements(s) + {x}
  {
    hide Leq;
    var r := Insert(s, x);
    if s == [] {
    } else if Leq(x, s[0]) {
      forall j | 1 <= j < |r|
        ensures x != r[j] && Leq(x, r[j])
      {
        assert r[j] == s[j - 1];
        if j > 1 {
          LeqTransitive(x, s[0], s[j - 1]);
        }
      }
    } else {
      LeqTotal(x, s[0]);
      InsertStrict(s[1..], x);
      forall j | 1 <= j < |r|
        ensures s[0] != r[j] && Leq(s[0], r[j])
      {
        assert r[j] in Elements(Insert(s[1..], x));
      }
      assert Elements(s) == {s[0]} + Elements(s[1..]);
      assert Elements(r) == {s[0]} + Elements(Insert(s[1..], x));
    }
  }

  lemma {:induction false} SortStrict(s: seq<string>)
    requires Distinct(s)
    ensures Strict(Sort(s)) && Elements(Sort(s)) == Elements(s)
  {
    if s != [] {
      SortStrict(s[1..]);
      assert s[0] !in Elements(s[1..]);
      InsertStrict(Sort(s[1..]), s[0]);
      assert Elements(s) == {s[0]} + Elements(s[1..]);
    }
  }

  lemma ElementsEmpty(s: seq<string>)
    ensures s == [] <==> Elements(s) == {}
  {
    if s != [] {
      assert s[0] in Elements(s);
    }
  }

  lemma SmallestFirst(s: seq<string>, x: string)
    requires Strict(s) && x in s
    ensures Leq(s[0], x)
  {
    LeqTotal(x, x);
  }

  /** Two sorted lists of the same distinct strings are the same list. */
  lemma {:induction false} StrictUnique(s: seq<string>, t: seq<string>)
    requires Strict(s) && Strict(t) && Elements(s) == Elements(t)
    ensures s == t
  {
    hide Leq;
    ElementsEmpty(s);
    ElementsEmpty(t);
    if s != [] {
      assert s[0] in Elements(t) && t[0] in Elements(s);
      SmallestFirst(s, t[0]);
      SmallestFirst(t, s[0]);
      LeqTotal(s[0], t[0]);
      assert Elements(s[1..]) == Elements(s) - {s[0]};
      assert Elements(t[1..]) == Elements(t) - {t[0]};
      StrictUnique(s[1..], t[1..]);
    }
  }
}
