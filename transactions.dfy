/**
 * The transactions collection: the records appended by the three money
 * movements and the history query (records of one account, newest first,
 * one page of ten).
 *
 * Dates come from a counter that ticks on every append, so a well-formed log
 * has strictly increasing dates; under that assumption sorting by date,
 * newest first, is the same as reading the log backwards.
 */
module Transactions {

  datatype Kind = Send | CashOut | CashIn

  /**
   * One movement. `senderId` is the debited account and `recipientId` the
   * credited one (for a cash-in, the agent and the caller respectively);
   * `amount` is the principal and `fee` what the debited account paid beyond it.
   */
  datatype Transaction = Transaction(
    senderId: nat,
    recipientId: nat,
    amount: real,
    fee: real,
    kind: Kind,
    date: nat)

  /** Records returned by one history request. */
  const PageSize: nat := 10

  predicate Involves(t: Transaction, id: nat)
  {
    t.senderId == id || t.recipientId == id
  }

  /** The records in which `id` is sender or recipient, in log order. */
  function Involving(log: seq<Transaction>, id: nat): (r: seq<Transaction>)
    ensures |r| <= |log|
    ensures forall t :: t in r <==> t in log && Involves(t, id)
  {
    if |log| == 0 then []
    else
      assert forall t :: t in log <==> t == log[0] || t in log[1..];
      (if Involves(log[0], id) then [log[0]] else []) + Involving(log[1..], id)
  }

  predicate DatesIncreasing(s: seq<Transaction>)
  {
    forall i, j :: 0 <= i < j < |s| ==> s[i].date < s[j].date
  }

  /** Sorted by date, newest first (ties in either order). */
  predicate NewestFirst(s: seq<Transaction>)
  {
    forall i, j :: 0 <= i < j < |s| ==> s[i].date >= s[j].date
  }

  function Reverse(s: seq<Transaction>): (r: seq<Transaction>)
    ensures |r| == |s|
    ensures forall i :: 0 <= i < |s| ==> r[i] == s[|s| - 1 - i]
  {
    if |s| == 0 then [] else Reverse(s[1..]) + [s[0]]
  }

  /** Places `t` before the first record that is older than it. */
  function InsertByDate(t: Transaction, s: seq<Transaction>): (r: seq<Transaction>)
    requires NewestFirst(s)
    ensures NewestFirst(r)
    ensures multiset(r) == multiset(s) + multiset{t}
    ensures r[0] == t || (|s| > 0 && r[0] == s[0])
  {
    if |s| == 0 then [t]
    else if t.date >= s[0].date then [t] + s
    else
      var rest := InsertByDate(t, s[1..]);
      assert s == [s[0]] + s[1..];
      [s[0]] + rest
  }

  /** The sort of the history query: by date, descending. */
  function SortByDate(s: seq<Transaction>): (r: seq<Transaction>)
    ensures NewestFirst(r)
    ensures multiset(r) == multiset(s)
  {
    if |s| == 0 then []
    else
      assert s == [s[0]] + s[1..];
      InsertByDate(s[0], SortByDate(s[1..]))
  }

  /** The limit of the history query: at most `n` records from the front. */
  function Take(s: seq<Transaction>, n: nat): (r: seq<Transaction>)
    ensures |r| <= n && |r| <= |s|
    ensures r == s[..|r|]
    ensures |s| <= n ==> r == s
    ensures |r| == if |s| <= n then |s| else n
  {
    if |s| <= n then s else s[..n]
  }

  /** The history query: filter by participant, sort by date descending, limit to a page. */
  function History(log: seq<Transaction>, id: nat): (r: seq<Transaction>)
    ensures |r| <= PageSize
    ensures forall t :: t in r ==> t in log && Involves(t, id)
    ensures NewestFirst(r)
  {
    var sorted := SortByDate(Involving(log, id));
    var r := Take(sorted, PageSize);
    forall t | t in r ensures t in multiset(sorted) {
    }
    r
  }

  /** A record older than everything in a newest-first sequence goes to its end. */
  lemma {:induction false} InsertOldest(t: Transaction, s: seq<Transaction>)
    requires NewestFirst(s)
    requires forall i :: 0 <= i < |s| ==> s[i].date > t.date
    ensures InsertByDate(t, s) == s + [t]
  {
    if |s| > 0 {
      InsertOldest(t, s[1..]);
      assert s == [s[0]] + s[1..];
    }
  }

  /** Sorting a log whose dates increase strictly reverses it. */
  lemma {:induction false} SortIncreasing(s: seq<Transaction>)
    requires DatesIncreasing(s)
    ensures SortByDate(s) == Reverse(s)
  {
    if |s| > 0 {
      SortIncreasing(s[1..]);
      InsertOldest(s[0], Reverse(s[1..]));
    }
  }

  /** Filtering keeps dates increasing. */
  lemma {:induction false} InvolvingIncreasing(log: seq<Transaction>, id: nat)
    requires DatesIncreasing(log)
    ensures DatesIncreasing(Involving(log, id))
  {
    if |log| > 0 {
      InvolvingIncreasing(log[1..], id);
      var rest := Involving(log[1..], id);
      forall t | t in rest ensures t.date > log[0].date {
        var k :| 0 <= k < |log[1..]| && log[1..][k] == t;
        assert log[k + 1] == t;
      }
    }
  }

  /**
   * On a log with increasing dates, the history is the newest records of the
   * account, newest first: the filtered log read backwards, cut to one page.
   */
  lemma HistoryNewestFirst(log: seq<Transaction>, id: nat)
    requires DatesIncreasing(log)
    ensures History(log, id) == Take(Reverse(Involving(log, id)), PageSize)
    ensures DatesIncreasing(Reverse(History(log, id)))
  {
    InvolvingIncreasing(log, id);
    SortIncreasing(Involving(log, id));
  }

  /** In the backwards read of an increasing sequence, a record outside the first page is older than all of it. */
  lemma PageHoldsNewest(inv: seq<Transaction>, m: nat)
    requires DatesIncreasing(inv) && m < |inv|
    requires inv[m] !in Take(Reverse(inv), PageSize)
    ensures |Take(Reverse(inv), PageSize)| == PageSize
    ensures forall t :: t in Take(Reverse(inv), PageSize) ==> t.date > inv[m].date
  {
    var rev := Reverse(inv);
    var page := Take(rev, PageSize);
    var p := |inv| - 1 - m;
    assert rev[p] == inv[m];
    assert forall q :: 0 <= q < |page| ==> page[q] == rev[q];
    assert p >= |page|;
    forall t | t in page ensures t.date > inv[m].date {
      var q :| 0 <= q < |page| && page[q] == t;
      assert t == inv[|inv| - 1 - q];
    }
  }

  /**
   * Nothing newer is skipped: an account's record that is missing from its
   * history only misses because a full page of strictly newer records came first.
   */
  lemma HistoryKeepsNewest(log: seq<Transaction>, id: nat, k: nat)
    requires DatesIncreasing(log)
    requires k < |log| && Involves(log[k], id)
    requires log[k] !in History(log, id)
    ensures |History(log, id)| == PageSize
    ensures forall t :: t in History(log, id) ==> t.date > log[k].date
  {
    HistoryNewestFirst(log, id);
    InvolvingIncreasing(log, id);
    var inv := Involving(log, id);
    assert log[k] in inv;
    var m :| 0 <= m < |inv| && inv[m] == log[k];
    PageHoldsNewest(inv, m);
  }
}
