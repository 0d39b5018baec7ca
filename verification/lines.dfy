/** Python's `splitlines`, and the `- key: value` lines that the reports are made of. */
module Lines {
  predicate IsBreak(ch: char) {
    || '\U{0A}' <= ch <= '\U{0D}' || '\U{1C}' <= ch <= '\U{1E}'
    || ch == '\U{85}' || ch == '\U{2028}' || ch == '\U{2029}'
  }

  predicate NoBreak(s: string) {
    forall i :: 0 <= i < |s| ==> !IsBreak(s[i])
  }

  function BreakAt(s: string): (k: nat)
    ensures k <= |s| && NoBreak(s[..k]) && (k < |s| ==> IsBreak(s[k]))
  {
    if s == "" || IsBreak(s[0]) then 0
    else
      var k := 1 + BreakAt(s[1..]);
      assert s[..k] == [s[0]] + s[1..][..k - 1];
      k
  }

  /** What follows the line break at `k`: a carriage return and a line feed are one break. */
  function After(s: string, k: nat): string
    requires k < |s|
  {
    if s[k] == '\r' && k + 1 < |s| && s[k + 1] == '\n' then s[k + 2..] else s[k + 1..]
  }

  function SplitLines(s: string): (lines: seq<string>)
    ensures forall l :: l in lines ==> NoBreak(l)
    decreases |s|
  {
    if s == "" then []
    else
      var k := BreakAt(s);
      if k == |s| then assert s[..k] == s; [s] else [s[..k]] + SplitLines(After(s, k))
  }

  // ---- what `splitlines` means ----

  /** Line feed, the two tabulations after it, carriage return, the three information separators, next line, and the line and
      paragraph separators. */
  predicate EndsLine(ch: char) {
    var n := ch as int;
    10 <= n <= 13 || 28 <= n <= 30 || n == 133 || n == 8232 || n == 8233
  }

  /** The lines of a text and what each ends with. */
  function Glue(lines: seq<string>, ends: seq<string>): string
    requires |lines| == |ends|
  {
    if lines == [] then "" else lines[0] + ends[0] + Glue(lines[1..], ends[1..])
  }

  /** No line holds a break, and each ends with one: a single character, or a carriage return and a line feed together,
      which are never two breaks. Only the last may lack it, if it is not empty. */
  predicate LinesEnd(lines: seq<string>, ends: seq<string>) {
    && |lines| == |ends|
    && (forall i, j :: 0 <= i < |lines| && 0 <= j < |lines[i]| ==> !EndsLine(lines[i][j]))
    && (forall i :: 0 <= i < |ends| ==>
          || (|ends[i]| == 1 && EndsLine(ends[i][0])) || ends[i] == "\r\n"
          || (ends[i] == "" && i == |ends| - 1 && lines[i] != ""))
    && (forall i :: 0 <= i < |ends| - 1 && ends[i] == "\r" ==> !(lines[i + 1] == "" && ends[i + 1] == "\n"))
  }

  lemma BreaksEndLines(ch: char)
    ensures IsBreak(ch) <==> EndsLine(ch)
  {
  }

  lemma BreakAtIs(s: string, k: nat)
    requires k <= |s| && (forall i :: 0 <= i < k ==> !IsBreak(s[i])) && (k < |s| ==> IsBreak(s[k]))
    ensures BreakAt(s) == k
  {
    var j := BreakAt(s);
    assert forall i :: 0 <= i < j ==> !IsBreak(s[i]) by {
      forall i | 0 <= i < j ensures !IsBreak(s[i]) { assert s[..j][i] == s[i]; }
    }
  }

  lemma {:induction false} GluedIsSplit(lines: seq<string>, ends: seq<string>)
    requires LinesEnd(lines, ends)
    ensures SplitLines(Glue(lines, ends)) == lines
  {
    if lines != [] {
      var l, e, s := lines[0], ends[0], Glue(lines, ends);
      var rest := Glue(lines[1..], ends[1..]);
      GluedIsSplit(lines[1..], ends[1..]);
      assert forall i :: 0 <= i < |l| ==> s[i] == l[i] && !IsBreak(s[i]);
      assert lines == [l] + lines[1..];
      if e == "" {
        assert s == l && lines[1..] == [];
        BreakAtIs(s, |s|);
        assert s[..|s|] == s;
      } else {
        assert s[|l|] == e[0] && IsBreak(e[0]);
        BreakAtIs(s, |l|);
        assert ends == [e] + ends[1..];
        NoLineFeedNext(l, e, lines[1..], ends[1..]);
        AfterEnd(l, e, rest);
        assert s[..|l|] == l;
      }
    }
  }

  /** A line's end, and what it may be followed by. */
  predicate IsEnd(e: string, rest: string) {
    (|e| == 1 && EndsLine(e[0]) && (e == "\r" ==> rest == "" || rest[0] != '\n')) || e == "\r\n"
  }

  lemma AfterEnd(l: string, e: string, rest: string)
    requires IsEnd(e, rest)
    ensures After(l + e + rest, |l|) == rest
  {
    var s := l + e + rest;
    assert s[|l| + |e|..] == rest;
    assert s[|l|] == e[0];
    if e == "\r\n" {
      assert s[|l| + 1] == e[1];
    } else if rest != "" {
      assert s[|l| + 1] == rest[0];
    }
  }

  lemma NoLineFeedNext(l: string, e: string, lines: seq<string>, ends: seq<string>)
    requires e != "" && LinesEnd([l] + lines, [e] + ends)
    ensures |lines| == |ends| && IsEnd(e, Glue(lines, ends))
  {
    var ls, es := [l] + lines, [e] + ends;
    assert es[0] == e && ls[0] == l;
    if e == "\r" && Glue(lines, ends) != "" {
      assert ls[1] == lines[0] && es[1] == ends[0];
      NextStart(lines, ends);
    }
  }

  /** A text of lines that begins with a line feed has an empty first line that ends with it. */
  lemma NextStart(lines: seq<string>, ends: seq<string>)
    requires |lines| == |ends| && Glue(lines, ends) != ""
    requires lines != [] ==> forall j :: 0 <= j < |lines[0]| ==> !EndsLine(lines[0][j])
    requires lines != [] && lines[0] == "" ==> ends[0] != ""
    ensures lines != []
    ensures Glue(lines, ends)[0] == '\n' ==> lines[0] == "" && ends[0] != "" && ends[0][0] == '\n'
  {
    if lines[0] != "" { assert Glue(lines, ends)[0] == lines[0][0]; } else { assert Glue(lines, ends)[0] == ends[0][0]; }
  }

  /** What ends the line that ends at `k`. */
  function EndAt(s: string, k: nat): (e: string)
    requires k < |s|
  {
    if s[k] == '\r' && k + 1 < |s| && s[k + 1] == '\n' then s[k..k + 2] else s[k..k + 1]
  }

  lemma CutAt(s: string, k: nat)
    requires k < |s| && IsBreak(s[k])
    ensures s == s[..k] + EndAt(s, k) + After(s, k) && IsEnd(EndAt(s, k), After(s, k))
  {
    var n := k + |EndAt(s, k)|;
    assert s == s[..k] + s[k..n] + s[n..] && After(s, k) == s[n..];
  }

  function EndsOf(s: string): (ends: seq<string>)
    decreases |s|
  {
    if s == "" then []
    else
      var k := BreakAt(s);
      if k == |s| then [""] else [EndAt(s, k)] + EndsOf(After(s, k))
  }

  lemma {:induction false} SplitIsGlued(s: string)
    ensures |SplitLines(s)| == |EndsOf(s)| && LinesEnd(SplitLines(s), EndsOf(s)) && Glue(SplitLines(s), EndsOf(s)) == s
    decreases |s|
  {
    if s != "" {
      var k := BreakAt(s);
      WholeBefore(s);
      if k == |s| {
        assert s[..k] == s;
        assert Glue([s], [""]) == s + "" + Glue([], []);
      } else {
        var rest := After(s, k);
        SplitIsGlued(rest);
        CutAt(s, k);
        FirstEnd(s[..k], EndAt(s, k), SplitLines(rest), EndsOf(rest), rest);
      }
    }
  }

  lemma WholeBefore(s: string)
    ensures forall i :: 0 <= i < BreakAt(s) ==> !EndsLine(s[i])
  {
    var k := BreakAt(s);
    forall i | 0 <= i < k ensures !EndsLine(s[i]) { assert s[..k][i] == s[i]; }
  }

  lemma FirstEnd(l: string, e: string, lines: seq<string>, ends: seq<string>, rest: string)
    requires LinesEnd(lines, ends) && Glue(lines, ends) == rest
    requires forall j :: 0 <= j < |l| ==> !EndsLine(l[j])
    requires IsEnd(e, rest)
    ensures LinesEnd([l] + lines, [e] + ends) && Glue([l] + lines, [e] + ends) == l + e + rest
  {
    assert ([l] + lines)[1..] == lines && ([e] + ends)[1..] == ends;
  }

  /** `splitlines` gives the one way of cutting a text into such lines. */
  lemma SplitIsExact(s: string, lines: seq<string>)
    ensures SplitLines(s) == lines <==> exists ends :: LinesEnd(lines, ends) && Glue(lines, ends) == s
  {
    if SplitLines(s) == lines { SplitIsGlued(s); }
    if ends :| LinesEnd(lines, ends) && Glue(lines, ends) == s { GluedIsSplit(lines, ends); }
  }

  /** The text whose lines are `lines`, each ended by a line feed. */
  function Unlines(lines: seq<string>): string {
    if lines == [] then "" else lines[0] + "\n" + Unlines(lines[1..])
  }

  lemma SplitFirst(l: string, rest: string)
    requires NoBreak(l)
    ensures SplitLines(l + "\n" + rest) == [l] + SplitLines(rest)
  {
    var s := l + "\n" + rest;
    var k := BreakAt(s);
    assert s[|l|] == '\n';
    assert forall i :: 0 <= i < |l| ==> s[i] == l[i];
    assert forall i :: 0 <= i < k ==> !IsBreak(s[i]) by {
      forall i | 0 <= i < k ensures !IsBreak(s[i]) { assert s[..k][i] == s[i]; }
    }
    assert s[..k] == l && After(s, k) == rest;
  }

  lemma BreakIsFirst(x: string, rest: string)
    requires !NoBreak(x)
    ensures BreakAt(x) < |x| && BreakAt(x + rest) == BreakAt(x) && (x + rest)[..BreakAt(x)] == x[..BreakAt(x)]
  {
    var k, j, s := BreakAt(x), BreakAt(x + rest), x + rest;
    assert x[..|x|] == x;
    assert forall i :: 0 <= i < |x| ==> s[i] == x[i];
    assert forall i :: 0 <= i < k ==> !IsBreak(x[i]) by {
      forall i | 0 <= i < k ensures !IsBreak(x[i]) { assert x[..k][i] == x[i]; }
    }
    assert forall i :: 0 <= i < j ==> !IsBreak(s[i]) by {
      forall i | 0 <= i < j ensures !IsBreak(s[i]) { assert s[..j][i] == s[i]; }
    }
  }

  /** What follows the first break of `x`, when a line feed and `rest` follow `x`. */
  lemma AfterAppend(x: string, k: nat, rest: string)
    requires k < |x|
    ensures var s := x + ("\n" + rest);
      if k + 1 == |x| && x[k] == '\r' then After(s, k) == rest else After(s, k) == After(x, k) + ("\n" + rest)
  {
    var s := x + ("\n" + rest);
    assert s[|x|..] == "\n" + rest && s[|x|] == '\n' && s[|x| + 1..] == rest;
    assert s[k + 1..] == x[k + 1..] + ("\n" + rest);
    if k + 1 < |x| { assert s[k + 2..] == x[k + 2..] + ("\n" + rest); }
  }

  lemma SplitStep(x: string, rest: string)
    requires !NoBreak(x)
    ensures var k := BreakAt(x); k < |x| && SplitLines(x + rest) == [x[..k]] + SplitLines(After(x + rest, k))
  {
    BreakIsFirst(x, rest);
  }

  lemma SplitWhole(x: string, rest: string)
    requires NoBreak(x)
    ensures SplitLines(x + ("\n" + rest)) == [x] + SplitLines(rest)
  {
    SplitFirst(x, rest);
    assert x + "\n" + rest == x + ("\n" + rest);
  }

  /** A line feed that is written ends a line, whatever stands before it. */
  lemma {:induction false} SplitAppend(x: string, rest: string)
    ensures SplitLines(x + ("\n" + rest)) == SplitLines(x + ("\n" + "")) + SplitLines(rest)
    decreases |x|
  {
    if NoBreak(x) {
      SplitWhole(x, rest);
      SplitWhole(x, "");
    } else {
      var k := BreakAt(x);
      var head := [x[..k]];
      SplitStep(x, "\n" + rest);
      SplitStep(x, "\n" + "");
      AfterAppend(x, k, rest);
      AfterAppend(x, k, "");
      if k + 1 == |x| && x[k] == '\r' {
        assert SplitLines("") == [];
      } else {
        var x' := After(x, k);
        SplitAppend(x', rest);
        Assoc(head, SplitLines(x' + ("\n" + "")), SplitLines(rest));
      }
    }
  }

  lemma Assoc(a: seq<string>, b: seq<string>, c: seq<string>)
    ensures a + (b + c) == a + b + c
  {
  }

  /** What is put before a text without a line break goes on to its first line. */
  lemma SplitPrefix(p: string, s: string)
    requires NoBreak(p) && s != ""
    ensures SplitLines(s) != [] && SplitLines(p + s) == [p + SplitLines(s)[0]] + SplitLines(s)[1..]
  {
    var k, j := BreakAt(s), BreakAt(p + s);
    assert forall i :: 0 <= i < |p| ==> (p + s)[i] == p[i];
    assert forall i :: 0 <= i < |s| ==> (p + s)[|p| + i] == s[i];
    assert forall i :: 0 <= i < k ==> !IsBreak(s[i]) by {
      forall i | 0 <= i < k ensures !IsBreak(s[i]) { assert s[..k][i] == s[i]; }
    }
    assert forall i :: 0 <= i < j ==> !IsBreak((p + s)[i]) by {
      forall i | 0 <= i < j ensures !IsBreak((p + s)[i]) { assert (p + s)[..j][i] == (p + s)[i]; }
    }
    assert j == |p| + k;
    assert (p + s)[..j] == p + s[..k];
    if k < |s| { assert After(p + s, j) == After(s, k); }
  }

  /** Splitting a printed report gives its lines back when none of them holds a line break. */
  lemma {:induction false} SplitUnlines(lines: seq<string>)
    requires forall l :: l in lines ==> NoBreak(l)
    ensures SplitLines(Unlines(lines)) == lines
  {
    if lines != [] {
      SplitFirst(lines[0], Unlines(lines[1..]));
      SplitUnlines(lines[1..]);
      assert lines == [lines[0]] + lines[1..];
    }
  }

  predicate IsItem(line: string) {
    |line| >= 2 && line[0] == '-' && line[1] == ' '
  }

  predicate SepHere(s: string, i: nat) {
    i + 1 < |s| && s[i] == ':' && s[i + 1] == ' '
  }

  /** Where the first `": "` is, or `|s|`. */
  function SepAt(s: string): (k: nat)
    ensures k <= |s| && (k < |s| ==> SepHere(s, k))
    ensures forall i: nat :: i < k ==> !SepHere(s, i)
  {
    if s == "" || SepHere(s, 0) then 0
    else
      var k := 1 + SepAt(s[1..]);
      assert forall i: nat :: 0 < i < |s| ==> (SepHere(s, i) <==> SepHere(s[1..], i - 1));
      k
  }

  predicate HasSep(s: string) {
    SepAt(s) < |s|
  }

  function KeyOf(s: string): string
    requires HasSep(s)
  {
    s[..SepAt(s)]
  }

  function ValueOf(s: string): string
    requires HasSep(s)
  {
    s[SepAt(s) + 2..]
  }

  /** The cut is at the one place where the key holds no separator. */
  lemma CutIsExact(s: string, key: string, value: string)
    ensures HasSep(s) && KeyOf(s) == key && ValueOf(s) == value <==> s == key + ": " + value && !HasSep(key)
  {
    if s == key + ": " + value && !HasSep(key) {
      assert SepHere(s, |key|);
      forall i: nat | i < |key| ensures !SepHere(s, i) {
        if i + 1 < |key| { assert s[i] == key[i] && s[i + 1] == key[i + 1]; assert !SepHere(key, i); }
      }
      assert SepAt(s) == |key|;
    }
    if HasSep(s) && KeyOf(s) == key && ValueOf(s) == value {
      assert s == key + ": " + value;
      assert HasSep(key) ==> SepHere(s, SepAt(key));
    }
  }

  function Item(content: string): string {
    "- " + content
  }

  function Field(key: string, value: string): string {
    Item(key + ": " + value)
  }

  predicate NoColon(s: string) {
    forall i :: 0 <= i < |s| ==> s[i] != ':'
  }

  /** Printable ASCII without a colon. */
  predicate Tame(s: string) {
    forall i :: 0 <= i < |s| ==> ' ' <= s[i] <= '~' && s[i] != ':'
  }

  lemma TameIsWhole(s: string)
    requires Tame(s)
    ensures NoBreak(s) && NoColon(s)
  {
  }

  lemma FieldIsCut(key: string, value: string)
    requires NoColon(key)
    ensures IsItem(Field(key, value)) && Field(key, value)[2..] == key + ": " + value
    ensures var s := Field(key, value)[2..]; HasSep(s) && KeyOf(s) == key && ValueOf(s) == value
  {
    CutIsExact(key + ": " + value, key, value);
  }

  lemma NoBreakJoin(a: string, b: string)
    ensures NoBreak(a + b) <==> NoBreak(a) && NoBreak(b)
  {
    if NoBreak(a + b) {
      forall i | 0 <= i < |a| ensures !IsBreak(a[i]) { assert (a + b)[i] == a[i]; }
      forall i | 0 <= i < |b| ensures !IsBreak(b[i]) { assert (a + b)[|a| + i] == b[i]; }
    }
  }

  function FieldLines(pairs: seq<(string, string)>): seq<string> {
    if pairs == [] then [] else [Field(pairs[0].0, pairs[0].1)] + FieldLines(pairs[1..])
  }

  function Assign(m: map<string, string>, pairs: seq<(string, string)>): map<string, string>
    decreases |pairs|
  {
    if pairs == [] then m else Assign(m[pairs[0].0 := pairs[0].1], pairs[1..])
  }

  lemma Regroup(lines: seq<string>, pairs: seq<(string, string)>)
    requires pairs != []
    ensures lines + FieldLines(pairs) == lines + [Field(pairs[0].0, pairs[0].1)] + FieldLines(pairs[1..])
  {
    var first, rest := [Field(pairs[0].0, pairs[0].1)], FieldLines(pairs[1..]);
    assert lines + (first + rest) == lines + first + rest;
  }

  lemma {:induction false} WholeFieldLines(pairs: seq<(string, string)>)
    requires forall i :: 0 <= i < |pairs| ==> NoBreak(pairs[i].0) && NoBreak(pairs[i].1)
    ensures forall l :: l in FieldLines(pairs) ==> NoBreak(l)
  {
    if pairs != [] {
      var key, value := pairs[0].0, pairs[0].1;
      NoBreakJoin(key, ": ");
      NoBreakJoin(key + ": ", value);
      NoBreakJoin("- ", key + ": " + value);
      WholeFieldLines(pairs[1..]);
    }
  }

  lemma {:induction false} OthersKept(m: map<string, string>, pairs: seq<(string, string)>, key: string)
    requires forall i :: 0 <= i < |pairs| ==> pairs[i].0 != key
    ensures (key in Assign(m, pairs) <==> key in m) && (key in m ==> Assign(m, pairs)[key] == m[key])
    decreases |pairs|
  {
    if pairs != [] { OthersKept(m[pairs[0].0 := pairs[0].1], pairs[1..], key); }
  }
}
