/**
 * The transaction table's queries: lookup by identity, `findAll`, and the
 * derived queries `findByEstado`, `findByCuentaId` and
 * `findByCuentaOrigenIdAndFechaHoraBetween`, as filters over the table in
 * insertion order.
 */
module Repository {
  import opened Wrappers
  import opened Domain

  /** The elements of `s` that satisfy `p`, in their original order. */
  function Filter(s: seq<Transaction>, p: Transaction -> bool): (r: seq<Transaction>)
    ensures |r| <= |s|
    ensures forall x :: x in r <==> x in s && p(x)
  {
    if s == [] then []
    else Filter(s[..|s| - 1], p) + (if p(s[|s| - 1]) then [s[|s| - 1]] else [])
  }

  /** Filtering distributes over concatenation, so appending to the table only extends a listing. */
  lemma {:induction false} FilterAppend(s: seq<Transaction>, t: seq<Transaction>, p: Transaction -> bool)
    ensures Filter(s + t, p) == Filter(s, p) + Filter(t, p)
    decreases |t|
  {
    if t == [] {
      assert s + t == s;
    } else {
      var u := t[..|t| - 1];
      assert (s + t)[..|s + t| - 1] == s + u;
      FilterAppend(s, u, p);
    }
  }

  lemma FilterAppendOne(s: seq<Transaction>, t: Transaction, p: Transaction -> bool)
    ensures Filter(s + [t], p) == Filter(s, p) + (if p(t) then [t] else [])
  {
    assert (s + [t])[..|s|] == s;
  }

  /** A filter that every element passes returns the whole sequence, in order. */
  lemma {:induction false} FilterKeepsAll(s: seq<Transaction>, p: Transaction -> bool)
    requires forall i :: 0 <= i < |s| ==> p(s[i])
    ensures Filter(s, p) == s
    decreases |s|
  {
    if s != [] {
      var init := s[..|s| - 1];
      FilterKeepsAll(init, p);
      assert p(s[|s| - 1]);
      assert Filter(s, p) == init + [s[|s| - 1]];
      assert init + [s[|s| - 1]] == s;
    }
  }

  /** A filter that no element passes returns nothing. */
  lemma FilterKeepsNone(s: seq<Transaction>, p: Transaction -> bool)
    requires forall i :: 0 <= i < |s| ==> !p(s[i])
    ensures Filter(s, p) == []
  {
  }

  /** The sum of the amounts of a list of records. */
  function SumAmounts(txs: seq<Transaction>): Money
  {
    if txs == [] then 0.0 else SumAmounts(txs[..|txs| - 1]) + txs[|txs| - 1].amount
  }

  lemma {:induction false} SumAmountsAppend(s: seq<Transaction>, t: seq<Transaction>)
    ensures SumAmounts(s + t) == SumAmounts(s) + SumAmounts(t)
    decreases |t|
  {
    if t == [] {
      assert s + t == s;
    } else {
      var u := t[..|t| - 1];
      assert (s + t)[..|s + t| - 1] == s + u;
      SumAmountsAppend(s, u);
    }
  }

  lemma SumAmountsAppendOne(s: seq<Transaction>, t: Transaction)
    ensures SumAmounts(s + [t]) == SumAmounts(s) + t.amount
  {
    assert (s + [t])[..|s|] == s;
  }

  /** `findById`: the first record carrying identity `id`, if any. */
  function FindById(log: seq<Transaction>, id: TransactionId): (r: Option<Transaction>)
    ensures r.Some? ==> r.value in log && r.value.id == id
    ensures r.None? <==> forall t :: t in log ==> t.id != id
  {
    if log == [] then None
    else if log[0].id == id then Some(log[0])
    else FindById(log[1..], id)
  }

  function HasStatus(status: TxStatus): Transaction -> bool
  {
    (t: Transaction) => t.status == status
  }

  function Touches(accountId: AccountId): Transaction -> bool
  {
    (t: Transaction) => t.origin == Some(accountId) || t.destination == Some(accountId)
  }

  function FromAccountBetween(accountId: AccountId, start: Instant, end: Instant): Transaction -> bool
  {
    (t: Transaction) => t.origin == Some(accountId) && start <= t.timestamp <= end
  }

  /** `findByEstado`: the records in the given status. */
  function ByStatus(log: seq<Transaction>, status: TxStatus): (r: seq<Transaction>)
    ensures forall t :: t in r <==> t in log && t.status == status
  {
    Filter(log, HasStatus(status))
  }

  /** `findByCuentaId`: the records whose origin or destination is the account. */
  function ByAccount(log: seq<Transaction>, accountId: AccountId): (r: seq<Transaction>)
    ensures forall t :: t in r <==> t in log && (t.origin == Some(accountId) || t.destination == Some(accountId))
  {
    Filter(log, Touches(accountId))
  }

  /**
   * `findByCuentaOrigenIdAndFechaHoraBetween`: the records originating at
   * the account whose timestamp lies in [start, end], both ends included.
   */
  function ByOriginBetween(log: seq<Transaction>, accountId: AccountId, start: Instant, end: Instant): (r: seq<Transaction>)
    ensures forall t :: t in r <==> t in log && t.origin == Some(accountId) && start <= t.timestamp <= end
  {
    Filter(log, FromAccountBetween(accountId, start, end))
  }
}
