/** Merging generated classifications into the stored ones (run_kr_theme_projection.py). */
module Merge {
  import opened Order
  import opened Wrappers

  /** A classification: its id, and everything else that equality compares. */
  datatype Record = Record(id: string, content: string)

  // ---- the promise ----

  predicate IdsRepeat(items: seq<Record>) {
    exists i, j :: 0 <= i < j < |items| && items[i].id == items[j].id
  }

  predicate Clash(items: seq<Record>) {
    exists a, b :: a in items && b in items && a.id == b.id && a != b
  }

  predicate SortedById(items: seq<Record>) {
    forall i, j :: 0 <= i < j < |items| ==> Before(items[i].id, items[j].id)
  }

  /** Nothing, when the stored ids repeat or one id has two values; else the union, sorted by id. */
  ghost predicate Merged(existing: seq<Record>, generated: seq<Record>, out: Option<seq<Record>>) {
    match out
    case None => IdsRepeat(existing) || Clash(existing + generated)
    case Some(union) =>
      && !IdsRepeat(existing) && !Clash(existing + generated)
      && SortedById(union) && forall r :: r in union <==> r in existing || r in generated
  }

  // ---- the algorithm ----

  /** `{item.classification_id: item for item in items}`: a later record replaces an earlier one. */
  function ById(items: seq<Record>): map<string, Record> {
    if items == [] then map[] else var last := items[|items| - 1]; ById(items[..|items| - 1])[last.id := last]
  }

  lemma ByIdStep(items: seq<Record>, r: Record)
    ensures ById(items + [r]) == ById(items)[r.id := r]
  {
    assert (items + [r])[..|items|] == items;
  }

  ghost predicate HasId(items: seq<Record>, id: string) {
    exists j :: 0 <= j < |items| && items[j].id == id
  }

  lemma HasIdStep(items: seq<Record>, r: Record, id: string)
    ensures HasId(items + [r], id) <==> HasId(items, id) || id == r.id
  {
    var longer := items + [r];
    if HasId(items, id) {
      var j :| 0 <= j < |items| && items[j].id == id;
      assert longer[j].id == id;
    }
    assert longer[|items|] == r;
  }

  lemma RepeatStep(items: seq<Record>, r: Record)
    ensures IdsRepeat(items + [r]) <==> IdsRepeat(items) || HasId(items, r.id)
  {
    var longer := items + [r];
    if IdsRepeat(items) {
      var i, j :| 0 <= i < j < |items| && items[i].id == items[j].id;
      assert longer[i].id == longer[j].id;
    }
    if HasId(items, r.id) {
      var j :| 0 <= j < |items| && items[j].id == r.id;
      assert longer[j].id == longer[|items|].id;
    }
  }

  lemma Size(byId: map<string, Record>, r: Record)
    ensures |byId[r.id := r]| == |byId| + if r.id in byId then 0 else 1
  {
    var after := byId[r.id := r];
    assert after.Keys == byId.Keys + {r.id};
    assert |after| == |after.Keys| && |byId| == |byId.Keys|;
  }

  lemma {:induction false} ByIdHasId(items: seq<Record>, id: string)
    ensures id in ById(items) <==> HasId(items, id)
    ensures id in ById(items) ==> ById(items)[id].id == id && ById(items)[id] in items
  {
    if items != [] {
      var init, last := items[..|items| - 1], items[|items| - 1];
      assert items == init + [last];
      ByIdHasId(init, id);
      HasIdStep(init, last, id);
    }
  }

  /** The dictionary is smaller than the sequence exactly when an id comes twice. */
  lemma {:induction false} SmallerWhenRepeated(items: seq<Record>)
    ensures |ById(items)| <= |items| && (|ById(items)| < |items| <==> IdsRepeat(items))
  {
    if items != [] {
      var init, last := items[..|items| - 1], items[|items| - 1];
      assert items == init + [last];
      SmallerWhenRepeated(init);
      ByIdHasId(init, last.id);
      RepeatStep(init, last);
      Size(ById(init), last);
    }
  }

  lemma ClashIsARepeat(items: seq<Record>)
    ensures Clash(items) ==> IdsRepeat(items)
  {
    if Clash(items) {
      var a, b :| a in items && b in items && a.id == b.id && a != b;
      var i, j :| 0 <= i < |items| && 0 <= j < |items| && items[i] == a && items[j] == b;
      if i < j { assert items[i].id == items[j].id; } else { assert items[j].id == items[i].id; }
    }
  }

  /** The check in the loop is exact: it fires when the next record clashes with one before it. */
  lemma CheckIsExact(items: seq<Record>, r: Record)
    requires !Clash(items)
    ensures Clash(items + [r]) <==> r.id in ById(items) && ById(items)[r.id] != r
  {
    ByIdHasId(items, r.id);
    var longer := items + [r];
    if r.id in ById(items) && ById(items)[r.id] != r {
      assert ById(items)[r.id] in longer && r in longer;
    }
    if Clash(longer) {
      var a, b :| a in longer && b in longer && a.id == b.id && a != b;
      var other := if a == r then b else a;
      assert other in items && other.id == r.id && other != r;
      var j :| 0 <= j < |items| && items[j] == other;
      assert HasId(items, r.id) && ById(items)[r.id] in items;
    }
  }

  lemma MoreClash(items: seq<Record>, longer: seq<Record>)
    requires Clash(items) && items <= longer
    ensures Clash(longer)
  {
    assert forall r :: r in items ==> r in longer;
  }

  /** `sorted(by_id)`. */
  method SortedIds(byId: map<string, Record>) returns (ids: seq<string>)
    ensures Ascending(ids) && forall id :: id in ids <==> id in byId
  {
    ids := [];
    var left := byId.Keys;
    while left != {}
      invariant left <= byId.Keys && Ascending(ids)
      invariant forall id :: id in ids <==> id in byId && id !in left
      decreases |left|
    {
      var id :| id in left;
      InsertKeepsOrder(id, ids);
      ids := Insert(id, ids);
      left := left - {id};
    }
  }

  /** `tuple(by_id[key] for key in sorted(by_id))`. */
  method InIdOrder(byId: map<string, Record>, ghost items: seq<Record>) returns (union: seq<Record>)
    requires byId == ById(items) && !Clash(items)
    ensures SortedById(union) && forall r :: r in union <==> r in items
  {
    var ids := SortedIds(byId);
    union := seq(|ids|, i requires 0 <= i < |ids| => byId[ids[i]]);
    InOrder(items, ids, union);
  }

  /** `_merge_classifications`. */
  method MergeClassifications(existing: seq<Record>, generated: seq<Record>) returns (out: Option<seq<Record>>)
    ensures Merged(existing, generated, out)
  {
    var byId := ById(existing);
    SmallerWhenRepeated(existing);
    if |byId| != |existing| { return None; }
    ClashIsARepeat(existing);
    ghost var seen := existing;
    for i := 0 to |generated|
      invariant seen == existing + generated[..i] && byId == ById(seen) && !Clash(seen)
    {
      var item := generated[i];
      CheckIsExact(seen, item);
      ByIdStep(seen, item);
      seen := seen + [item];
      assert seen == existing + generated[..i + 1] && seen <= existing + generated;
      if item.id in byId && byId[item.id] != item {
        MoreClash(seen, existing + generated);
        return None;
      }
      byId := byId[item.id := item];
    }
    assert seen == existing + generated;
    var union := InIdOrder(byId, seen);
    UnionOf(existing, generated, union);
    return Some(union);
  }

  lemma UnionOf(existing: seq<Record>, generated: seq<Record>, union: seq<Record>)
    requires !IdsRepeat(existing) && !Clash(existing + generated) && SortedById(union)
    requires forall r :: r in union <==> r in existing + generated
    ensures Merged(existing, generated, Some(union))
  {
  }

  lemma InOrder(items: seq<Record>, ids: seq<string>, union: seq<Record>)
    requires !Clash(items) && Ascending(ids) && forall id :: id in ids <==> id in ById(items)
    requires |union| == |ids| && forall i :: 0 <= i < |ids| ==> union[i] == ById(items)[ids[i]]
    ensures SortedById(union) && forall r :: r in union <==> r in items
  {
    forall i | 0 <= i < |ids| ensures union[i].id == ids[i] && union[i] in items { ByIdHasId(items, ids[i]); }
    forall r ensures r in union <==> r in items {
      if r in union { var i :| 0 <= i < |union| && union[i] == r; }
      if r in items {
        var j :| 0 <= j < |items| && items[j] == r;
        ByIdHasId(items, r.id);
        assert HasId(items, r.id) && ById(items)[r.id] == r;
        var i :| 0 <= i < |ids| && ids[i] == r.id;
        assert union[i] == r;
      }
    }
  }

  // ---- what follows from the promise ----

  lemma SortedIsAscending(items: seq<Record>) returns (ids: seq<string>)
    requires SortedById(items)
    ensures |ids| == |items| && Ascending(ids) && forall i :: 0 <= i < |ids| ==> ids[i] == items[i].id
  {
    ids := seq(|items|, i requires 0 <= i < |items| => items[i].id);
  }

  lemma SortedDoesNotRepeat(items: seq<Record>)
    requires SortedById(items)
    ensures !IdsRepeat(items)
  {
  }

  /** The promise has one answer, whatever order the records come in and whichever side they come from. */
  lemma MergeDependsOnContents(e: seq<Record>, g: seq<Record>, out: Option<seq<Record>>,
                               e': seq<Record>, g': seq<Record>, out': Option<seq<Record>>)
    requires Merged(e, g, out) && Merged(e', g', out') && !IdsRepeat(e) && !IdsRepeat(e')
    requires forall r :: r in e || r in g <==> r in e' || r in g'
    ensures out == out'
  {
    SameClash(e + g, e' + g');
    if out.Some? {
      SameUnion(out.value, out'.value);
    }
  }

  lemma SameClash(a: seq<Record>, b: seq<Record>)
    requires forall r :: r in a <==> r in b
    ensures Clash(a) <==> Clash(b)
  {
  }

  lemma SameUnion(a: seq<Record>, b: seq<Record>)
    requires SortedById(a) && SortedById(b) && forall r :: r in a <==> r in b
    ensures a == b
  {
    var x := SortedIsAscending(a);
    var y := SortedIsAscending(b);
    forall id ensures id in x <==> id in y {
      if id in x { var i :| 0 <= i < |x| && x[i] == id; assert a[i] in b; }
      if id in y { var i :| 0 <= i < |y| && y[i] == id; assert b[i] in a; }
    }
    AscendingIsUnique(x, y);
    forall i | 0 <= i < |a| ensures a[i] == b[i] {
      assert a[i] in b;
      var j :| 0 <= j < |b| && b[j] == a[i];
      BeforeTotal(x[i], x[j]);
    }
  }

  /** Merging the same batch into the result changes nothing. */
  lemma MergingAgainChangesNothing(existing: seq<Record>, generated: seq<Record>, union: seq<Record>)
    requires Merged(existing, generated, Some(union))
    ensures Merged(union, generated, Some(union)) && !Merged(union, generated, None)
  {
    SortedDoesNotRepeat(union);
    SameClash(existing + generated, union + generated);
  }

  /** And failing is not a choice: the two outcomes exclude each other. */
  lemma MergeIsDetermined(existing: seq<Record>, generated: seq<Record>, a: Option<seq<Record>>, b: Option<seq<Record>>)
    requires Merged(existing, generated, a) && Merged(existing, generated, b)
    ensures a == b
  {
    if a.Some? && b.Some? { SameUnion(a.value, b.value); }
  }
}
