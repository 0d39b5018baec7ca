/** Python's order on strings, and `sorted(set(...))`. */
module Order {
  /** Lexicographic order on code points. */
  predicate Leq(a: seq<int>, b: seq<int>) {
    a == [] || (b != [] && (a[0] < b[0] || (a[0] == b[0] && Leq(a[1..], b[1..]))))
  }

  lemma {:induction false} LeqTotal(a: seq<int>, b: seq<int>)
    ensures Leq(a, b) || Leq(b, a)
    ensures Leq(a, b) && Leq(b, a) ==> a == b
  {
    if a != [] && b != [] && a[0] == b[0] {
      LeqTotal(a[1..], b[1..]);
      assert a == [a[0]] + a[1..] && b == [b[0]] + b[1..];
    }
  }

  lemma {:induction false} LeqTransitive(a: seq<int>, b: seq<int>, c: seq<int>)
    requires Leq(a, b) && Leq(b, c)
    ensures Leq(a, c)
  {
    if a != [] && a[0] == b[0] && b[0] == c[0] {
      LeqTransitive(a[1..], b[1..], c[1..]);
    }
  }

  /** What the order is: a proper beginning comes first, and otherwise the first difference decides. */
  lemma {:induction false} LeqIsLexicographic(a: seq<int>, b: seq<int>)
    ensures Leq(a, b) <==>
      || a <= b
      || exists i :: 0 <= i < |a| && i < |b| && a[i] < b[i] && forall j :: 0 <= j < i ==> a[j] == b[j]
  {
    if a != [] && b != [] && a[0] == b[0] {
      var x, y := a[1..], b[1..];
      LeqIsLexicographic(x, y);
      assert a == [a[0]] + x && b == [b[0]] + y;
      if i :| 0 <= i < |x| && i < |y| && x[i] < y[i] && forall j :: 0 <= j < i ==> x[j] == y[j] {
        assert a[i + 1] < b[i + 1];
      }
      if i :| 0 <= i < |a| && i < |b| && a[i] < b[i] && forall j :: 0 <= j < i ==> a[j] == b[j] {
        assert x[i - 1] < y[i - 1];
        assert forall j :: 0 <= j < i - 1 ==> x[j] == y[j];
      }
    }
  }

  /** So on strings: by code point. */
  lemma BeforeIsLexicographic(a: string, b: string)
    ensures Before(a, b) <==>
      || (a <= b && a != b)
      || exists i :: 0 <= i < |a| && i < |b| && a[i] < b[i] && forall j :: 0 <= j < i ==> a[j] == b[j]
  {
    var x, y := Codes(a), Codes(b);
    LeqIsLexicographic(x, y);
    if i :| 0 <= i < |x| && i < |y| && x[i] < y[i] && forall j :: 0 <= j < i ==> x[j] == y[j] {
      assert a[i] < b[i];
      forall j | 0 <= j < i ensures a[j] == b[j] { assert x[j] == y[j]; }
    }
    if i :| 0 <= i < |a| && i < |b| && a[i] < b[i] && forall j :: 0 <= j < i ==> a[j] == b[j] {
      assert x[i] < y[i] && forall j :: 0 <= j < i ==> x[j] == y[j];
    }
    if x <= y {
      forall i | 0 <= i < |a| ensures a[i] == b[i] { assert x[i] == y[i]; }
    }
  }

  function Codes(s: string): seq<int> {
    seq(|s|, i requires 0 <= i < |s| => s[i] as int)
  }

  /** `a < b` on strings. */
  predicate Before(a: string, b: string) {
    a != b && Leq(Codes(a), Codes(b))
  }

  lemma CodesDiffer(a: string, b: string)
    requires a != b
    ensures Codes(a) != Codes(b)
  {
    if |a| == |b| {
      var i :| 0 <= i < |a| && a[i] != b[i];
      assert Codes(a)[i] != Codes(b)[i];
    }
  }

  lemma BeforeTotal(a: string, b: string)
    ensures a == b || Before(a, b) || Before(b, a)
    ensures !(Before(a, b) && Before(b, a))
  {
    LeqTotal(Codes(a), Codes(b));
    if a != b { CodesDiffer(a, b); }
  }

  lemma BeforeTransitive(a: string, b: string, c: string)
    requires Before(a, b) && Before(b, c)
    ensures Before(a, c)
  {
    LeqTransitive(Codes(a), Codes(b), Codes(c));
    BeforeTotal(a, b);
  }

  predicate Ascending(s: seq<string>) {
    forall i, j :: 0 <= i < j < |s| ==> Before(s[i], s[j])
  }

  /** Puts `x` in its place unless it is there already. */
  function Insert(x: string, s: seq<string>): seq<string> {
    if s == [] || Before(x, s[0]) then [x] + s
    else if x == s[0] then s
    else [s[0]] + Insert(x, s[1..])
  }

  lemma {:induction false} InsertKeepsOrder(x: string, s: seq<string>)
    requires Ascending(s)
    ensures Ascending(Insert(x, s)) && forall k :: k in Insert(x, s) <==> k == x || k in s
  {
    if s == [] || x == s[0] {
    } else if Before(x, s[0]) {
      forall j | 0 <= j < |s| ensures Before(x, s[j]) {
        if j > 0 { BeforeTransitive(x, s[0], s[j]); }
      }
    } else {
      var rest := Insert(x, s[1..]);
      InsertKeepsOrder(x, s[1..]);
      BeforeTotal(x, s[0]);
      forall j | 0 <= j < |rest| ensures Before(s[0], rest[j]) {
        assert rest[j] in rest;
      }
    }
  }

  /** `sorted(set(items))`. */
  function SortedSet(items: seq<string>): seq<string> {
    if items == [] then [] else Insert(items[0], SortedSet(items[1..]))
  }

  lemma {:induction false} SortedSetIsSorted(items: seq<string>)
    ensures Ascending(SortedSet(items)) && forall k :: k in SortedSet(items) <==> k in items
  {
    if items != [] {
      SortedSetIsSorted(items[1..]);
      InsertKeepsOrder(items[0], SortedSet(items[1..]));
    }
  }

  lemma SomeElement<T>(s: seq<T>)
    ensures s != [] ==> exists k :: k in s
  {
    if s != [] { assert s[0] in s; }
  }

  /** An ascending sequence is determined by its elements. */
  lemma {:induction false} AscendingIsUnique(a: seq<string>, b: seq<string>)
    requires Ascending(a) && Ascending(b) && forall k :: k in a <==> k in b
    ensures a == b
  {
    if a == [] {
      SomeElement(b);
    } else {
      assert a[0] in a;
      assert a[0] in b && b != [] && b[0] in b;
      if a[0] != b[0] {
        var i, j :| 0 < i < |b| && b[i] == a[0] && 0 < j < |a| && a[j] == b[0];
        BeforeTotal(a[0], b[0]);
        assert false;
      }
      forall k ensures k in a[1..] <==> k in b[1..] {
        if k in a[1..] { var i :| 0 < i < |a| && a[i] == k; BeforeTotal(a[0], k); assert k in a; }
        if k in b[1..] { var i :| 0 < i < |b| && b[i] == k; BeforeTotal(b[0], k); assert k in b; }
      }
      AscendingIsUnique(a[1..], b[1..]);
    }
  }
}
