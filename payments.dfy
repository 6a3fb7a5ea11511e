/**
 * The admin payment list: pending payments first, each with Approve and Reject actions;
 * a verification that succeeds updates that payment's status in place in the list.
 */
module Payments {
  import opened Wrappers
  import opened Strings
  import opened Seqs

  /** A payment as the list needs it. */
  datatype Payment = Payment(id: string, status: string)

  const Pending: string := "pending"

  /** The verification request: the new status and the rejection reason (`''` when none is given). */
  datatype VerifyRequest = PatchVerify(id: string, status: string, rejectionReason: string)

  predicate IsPending(p: Payment) {
    p.status == Pending
  }

  /** `[...pending, ...rest]`: the pending payments, then the others, each group in list order. */
  function DisplayOrder(payments: seq<Payment>): (r: seq<Payment>)
    ensures |r| == |payments|
  {
    var pending := Filter(payments, IsPending);
    var rest := Filter(payments, (p: Payment) => !IsPending(p));
    FilterSplit(payments);
    pending + rest
  }

  /** The pending group and the rest together are as long as the list. */
  lemma {:induction false} FilterSplit(payments: seq<Payment>)
    ensures |Filter(payments, IsPending)| + |Filter(payments, (p: Payment) => !IsPending(p))| == |payments|
  {
    if |payments| > 0 {
      FilterSplit(payments[1..]);
    }
  }

  /** The display order is a permutation of the fetched list. */
  lemma DisplayIsPermutation(payments: seq<Payment>)
    ensures multiset(DisplayOrder(payments)) == multiset(payments)
  {
    var notPending := (p: Payment) => !IsPending(p);
    forall x ensures multiset(DisplayOrder(payments))[x] == multiset(payments)[x] {
      FilterCount(payments, IsPending, x);
      FilterCount(payments, notPending, x);
    }
  }

  /** Every pending payment is listed before every other one. */
  lemma PendingFirst(payments: seq<Payment>)
    ensures var r := DisplayOrder(payments);
            var n := |Filter(payments, IsPending)|;
            forall k :: 0 <= k < |r| ==> (IsPending(r[k]) <==> k < n)
  {
  }

  /** Within each group the payments keep the order the list gave them. */
  lemma DisplayKeepsGroupOrder(payments: seq<Payment>)
    ensures var notPending := (p: Payment) => !IsPending(p);
            Filter(DisplayOrder(payments), IsPending) == Filter(payments, IsPending)
            && Filter(DisplayOrder(payments), notPending) == Filter(payments, notPending)
  {
    var notPending := (p: Payment) => !IsPending(p);
    var pending := Filter(payments, IsPending);
    var rest := Filter(payments, notPending);
    assert DisplayOrder(payments) == pending + rest;
    FilterAppend(pending, rest, IsPending);
    FilterAppend(pending, rest, notPending);
    FilterAll(pending, IsPending);
    FilterNone(rest, IsPending);
    FilterNone(pending, notPending);
    FilterAll(rest, notPending);
  }

  /** `prev.map(p => p._id === id ? { ...p, status } : p)`. */
  function SetStatus(payments: seq<Payment>, id: string, status: string): (r: seq<Payment>)
    ensures |r| == |payments|
    ensures forall k :: 0 <= k < |payments| ==> r[k].id == payments[k].id
    ensures forall k :: 0 <= k < |payments| ==> r[k].status == (if payments[k].id == id then status else payments[k].status)
  {
    seq(|payments|, k requires 0 <= k < |payments| => if payments[k].id == id then payments[k].(status := status) else payments[k])
  }

  /** After approving or rejecting a payment, it is no longer among the pending ones, and no other payment joins them. */
  lemma VerifiedLeavesPending(payments: seq<Payment>, id: string, status: string, p: Payment)
    requires status != Pending
    ensures p in Filter(SetStatus(payments, id, status), IsPending) <==> p in Filter(payments, IsPending) && p.id != id
  {
    var r := SetStatus(payments, id, status);
    FilterMembership(r, IsPending, p);
    FilterMembership(payments, IsPending, p);
    if p in r && IsPending(p) {
      var k :| 0 <= k < |r| && r[k] == p;
      assert payments[k] == p;
    }
    if p in payments && IsPending(p) && p.id != id {
      var k :| 0 <= k < |payments| && payments[k] == p;
      assert r[k] == p;
    }
  }

  /** Approve and Reject are offered only for a pending payment. */
  predicate ActionsOffered(p: Payment) {
    IsPending(p)
  }

  /** The request `handleVerify` sends. */
  function VerifyRequestOf(id: string, status: string, rejectionReason: Option<string>): (r: VerifyRequest)
    ensures r.id == id && r.status == status
    ensures rejectionReason.Some? && rejectionReason.value != "" ==> r.rejectionReason == rejectionReason.value
    ensures rejectionReason.None? || rejectionReason.value == "" ==> r.rejectionReason == ""
  {
    PatchVerify(id, status, OrDefault(rejectionReason, ""))
  }

  /** The payments fetched on opening the page: the response, or none when it failed. */
  function LoadedPayments(response: Outcome<seq<Payment>>): (r: seq<Payment>)
    ensures response.Ok? ==> r == response.data
    ensures response.Failed? ==> r == []
  {
    if response.Ok? then response.data else []
  }

  /** The list after `handleVerify` settles with `outcome`: a failure leaves it as it was. */
  function AfterVerify(payments: seq<Payment>, id: string, status: string, outcome: Outcome<()>): (r: seq<Payment>)
    ensures outcome.Ok? ==> r == SetStatus(payments, id, status)
    ensures outcome.Failed? ==> r == payments
  {
    if outcome.Ok? then SetStatus(payments, id, status) else payments
  }
}
