/**
 * `pd.merge(final_df, transactions, how='inner', left_index=True,
 * right_index=True)` (data_cleaning.py:62): ride rows and transaction rows
 * are paired on equal transaction id; unmatched rows on either side are
 * dropped without error. Output follows ride order; a ride matching several
 * transaction rows yields one row per match, in transaction-table order.
 */
module Join {
  import opened Records

  /** The transaction rows carrying transaction id `id`, in table order. */
  function Matches(links: seq<Link>, id: int): (r: seq<Link>)
    ensures forall l :: l in r <==> l in links && l.txnID == id
    ensures |r| <= |links|
  {
    if links == [] then []
    else (if links[0].txnID == id then [links[0]] else []) + Matches(links[1..], id)
  }

  /** One merged row: the ride's columns followed by custID and mode_payment. */
  function Merge(row: Located, link: Link): Joined {
    Joined(row.fact, row.city, link.custID, link.paymentMode)
  }

  function MergeEach(row: Located, links: seq<Link>): seq<Joined> {
    seq(|links|, k requires 0 <= k < |links| => Merge(row, links[k]))
  }

  /** Row `x` is the merge of some ride row and some transaction row with the same id. */
  ghost predicate MergedPair(left: seq<Located>, right: seq<Link>, x: Joined) {
    exists i, k :: 0 <= i < |left| && 0 <= k < |right|
      && left[i].fact.txnID == right[k].txnID && x == Merge(left[i], right[k])
  }

  /**
   * The inner merge. Its rows are exactly the merges of a ride row and a
   * transaction row with the same id: a ride without a transaction row
   * contributes nothing, and no row is made up.
   */
  function InnerJoin(left: seq<Located>, right: seq<Link>): (r: seq<Joined>)
    ensures forall x :: x in r <==> MergedPair(left, right, x)
  {
    if left == [] then []
    else
      var head := MergeEach(left[0], Matches(right, left[0].fact.txnID));
      var rest := InnerJoin(left[1..], right);
      forall x ensures x in head + rest <==> MergedPair(left, right, x) {
        MergeEachMembers(left[0], right, x);
        MergedPairCons(left, right, x);
      }
      head + rest
  }

  lemma MergeEachMembers(row: Located, right: seq<Link>, x: Joined)
    ensures x in MergeEach(row, Matches(right, row.fact.txnID)) <==>
      exists k :: 0 <= k < |right| && row.fact.txnID == right[k].txnID && x == Merge(row, right[k])
  {
    if x in MergeEach(row, Matches(right, row.fact.txnID)) {
      MergeEachSound(row, right, x);
    }
    if exists k :: 0 <= k < |right| && row.fact.txnID == right[k].txnID && x == Merge(row, right[k]) {
      var k :| 0 <= k < |right| && row.fact.txnID == right[k].txnID && x == Merge(row, right[k]);
      MergeEachComplete(row, right, k);
    }
  }

  lemma {:induction false} MergeEachSound(row: Located, right: seq<Link>, x: Joined)
    requires x in MergeEach(row, Matches(right, row.fact.txnID))
    ensures exists k :: 0 <= k < |right| && row.fact.txnID == right[k].txnID && x == Merge(row, right[k])
  {
    var ms := Matches(right, row.fact.txnID);
    var head := MergeEach(row, ms);
    var m :| 0 <= m < |head| && head[m] == x;
    var l := ms[m];
    assert l in ms;
    var k :| 0 <= k < |right| && right[k] == l;
    assert x == Merge(row, right[k]);
  }

  lemma {:induction false} MergeEachComplete(row: Located, right: seq<Link>, k: nat)
    requires k < |right| && row.fact.txnID == right[k].txnID
    ensures Merge(row, right[k]) in MergeEach(row, Matches(right, row.fact.txnID))
  {
    var ms := Matches(right, row.fact.txnID);
    assert right[k] in right;
    assert right[k] in ms;
    var m :| 0 <= m < |ms| && ms[m] == right[k];
    assert MergeEach(row, ms)[m] == Merge(row, right[k]);
  }

  lemma MergedPairCons(left: seq<Located>, right: seq<Link>, x: Joined)
    requires left != []
    ensures MergedPair(left, right, x) <==>
      (exists k :: 0 <= k < |right| && left[0].fact.txnID == right[k].txnID && x == Merge(left[0], right[k]))
      || MergedPair(left[1..], right, x)
  {
    if MergedPair(left, right, x) {
      var i, k :| 0 <= i < |left| && 0 <= k < |right|
        && left[i].fact.txnID == right[k].txnID && x == Merge(left[i], right[k]);
      if i > 0 {
        assert left[1..][i - 1] == left[i];
      }
    }
    if MergedPair(left[1..], right, x) {
      var i, k :| 0 <= i < |left[1..]| && 0 <= k < |right|
        && left[1..][i].fact.txnID == right[k].txnID && x == Merge(left[1..][i], right[k]);
      assert left[i + 1] == left[1..][i];
    }
  }

  /** No two transaction rows share a transaction id (the table's key). */
  ghost predicate UniqueIds(links: seq<Link>) {
    forall k1, k2 :: 0 <= k1 < k2 < |links| ==> links[k1].txnID != links[k2].txnID
  }

  function Ids(links: seq<Link>): set<int> {
    set l | l in links :: l.txnID
  }

  /** The rows whose transaction id, as `id` reads it, is in `ids`, in their order. */
  function Linked<T>(rows: seq<T>, id: T -> int, ids: set<int>): seq<T> {
    if rows == [] then []
    else (if id(rows[0]) in ids then [rows[0]] else []) + Linked(rows[1..], id, ids)
  }

  /** The transaction id of a located ride row. */
  function LocatedId(row: Located): int {
    row.fact.txnID
  }

  lemma {:induction false} MatchesUnique(links: seq<Link>, id: int)
    requires UniqueIds(links)
    ensures |Matches(links, id)| == if id in Ids(links) then 1 else 0
  {
    if links != [] {
      assert UniqueIds(links[1..]) by {
        forall k1, k2 | 0 <= k1 < k2 < |links[1..]|
          ensures links[1..][k1].txnID != links[1..][k2].txnID
        {
          assert links[1..][k1] == links[k1 + 1] && links[1..][k2] == links[k2 + 1];
        }
      }
      MatchesUnique(links[1..], id);
      assert id in Ids(links) <==> links[0].txnID == id || id in Ids(links[1..]) by {
        if id in Ids(links) {
          var l :| l in links && l.txnID == id;
          if l != links[0] {
            var k :| 0 <= k < |links| && links[k] == l;
            assert links[1..][k - 1] == l;
          }
        }
        if id in Ids(links[1..]) {
          var l :| l in links[1..] && l.txnID == id;
          assert l in links;
        }
      }
    }
  }

  /**
   * With transaction ids unique, the merge keeps the linked rides in ride
   * order, one output row each, and never has more rows than there are rides.
   */
  lemma {:induction false} JoinKeepsRideOrder(left: seq<Located>, right: seq<Link>)
    requires UniqueIds(right)
    ensures |InnerJoin(left, right)| == |Linked(left, LocatedId, Ids(right))| <= |left|
    ensures forall j :: 0 <= j < |InnerJoin(left, right)| ==>
      InnerJoin(left, right)[j].fact == Linked(left, LocatedId, Ids(right))[j].fact
      && InnerJoin(left, right)[j].city == Linked(left, LocatedId, Ids(right))[j].city
  {
    if left != [] {
      JoinKeepsRideOrder(left[1..], right);
      MatchesUnique(right, left[0].fact.txnID);
    }
  }

  lemma {:induction false} MatchesIgnoreOther(links: seq<Link>, l: Link, id: int)
    requires l.txnID != id
    ensures Matches(links + [l], id) == Matches(links, id)
  {
    if links == [] {
      assert [] + [l] == [l];
    } else {
      assert (links + [l])[1..] == links[1..] + [l];
      MatchesIgnoreOther(links[1..], l, id);
    }
  }

  /** A transaction row whose id no ride carries changes nothing in the merge. */
  lemma {:induction false} JoinIgnoresOrphanLink(left: seq<Located>, right: seq<Link>, l: Link)
    requires forall i :: 0 <= i < |left| ==> left[i].fact.txnID != l.txnID
    ensures InnerJoin(left, right + [l]) == InnerJoin(left, right)
  {
    if left != [] {
      MatchesIgnoreOther(right, l, left[0].fact.txnID);
      JoinIgnoresOrphanLink(left[1..], right, l);
    }
  }
}
