/**
 * The ordering pandas uses for the `ship_id` group keys: Python's `str`
 * comparison, code point by code point, a proper prefix sorting first.
 * Vessel summaries come out in strictly ascending order of this relation.
 */
module ShipIds {

  predicate Less(a: string, b: string)
  {
    if |a| == 0 then |b| > 0
    else if |b| == 0 then false
    else if a[0] != b[0] then a[0] < b[0]
    else Less(a[1..], b[1..])
  }

  lemma {:induction false} LessIrreflexive(a: string)
    ensures !Less(a, a)
  {
    if |a| > 0 {
      LessIrreflexive(a[1..]);
    }
  }

  lemma {:induction false} LessTransitive(a: string, b: string, c: string)
    requires Less(a, b) && Less(b, c)
    ensures Less(a, c)
  {
    if |a| > 0 && a[0] == b[0] && b[0] == c[0] {
      LessTransitive(a[1..], b[1..], c[1..]);
    }
  }

  lemma {:induction false} LessTotal(a: string, b: string)
    requires a != b
    ensures Less(a, b) || Less(b, a)
  {
    if |a| > 0 && |b| > 0 && a[0] == b[0] {
      assert a == [a[0]] + a[1..] && b == [b[0]] + b[1..];
      LessTotal(a[1..], b[1..]);
    }
  }

  ghost predicate StrictlySorted(ids: seq<string>)
  {
    forall i, j :: 0 <= i < j < |ids| ==> Less(ids[i], ids[j])
  }

  /** Adds `id` to an ascending key list unless it is already there. */
  function Insert(ids: seq<string>, id: string): (r: seq<string>)
    requires StrictlySorted(ids)
    ensures StrictlySorted(r)
    ensures forall x :: x in r <==> x in ids || x == id
  {
    if |ids| == 0 then [id]
    else if ids[0] == id then ids
    else if Less(id, ids[0]) then
      assert forall j :: 0 < j < |ids| ==> Less(id, ids[j]) by {
        forall j | 0 < j < |ids| ensures Less(id, ids[j]) {
          LessTransitive(id, ids[0], ids[j]);
        }
      }
      [id] + ids
    else
      LessTotal(id, ids[0]);
      var rest := Insert(ids[1..], id);
      assert forall x :: x in rest ==> Less(ids[0], x);
      [ids[0]] + rest
  }

  /** A strictly sorted sequence has no repeats: it holds as many ids as its set does. */
  lemma {:induction false} StrictlySortedCount(ids: seq<string>)
    requires StrictlySorted(ids)
    ensures |set x | x in ids| == |ids|
  {
    if |ids| > 0 {
      var init := ids[..|ids| - 1];
      var last := ids[|ids| - 1];
      StrictlySortedCount(init);
      assert (set x | x in ids) == (set x | x in init) + {last};
      if last in init {
        var k :| 0 <= k < |init| && init[k] == last;
        assert Less(ids[k], last);
        LessIrreflexive(last);
      }
    }
  }
}
