/**
 * The middleware in front of loan creation: a member who still has an
 * active loan cannot be given another one.
 */
module LoansGuard {
  import opened Js
  import opened Store

  datatype GuardResult = Next | Refused(status: int)

  /** A loan that keeps its member from borrowing again: `active`, or with no status at all. */
  predicate Active(l: Loan) {
    l.status == Str("active") || IsNullish(l.status)
  }

  predicate Blocks(l: Loan, memberId: JsVal) {
    SameId(l.memberId, memberId) && Active(l)
  }

  /** `loans.some((l) => String(l.memberId) === String(memberId) && (...))`. */
  function HasActive(loans: seq<Loan>, memberId: JsVal): (r: bool)
    ensures r <==> exists i :: 0 <= i < |loans| && Blocks(loans[i], memberId)
  {
    if loans == [] then false
    else if Blocks(loans[0], memberId) then true
    else
      assert forall i :: 1 <= i < |loans| ==> loans[i] == loans[1..][i - 1];
      HasActive(loans[1..], memberId)
  }

  /**
   * `loansGuard(req, res, next)` over `db.loans`, which it only reads. It
   * refuses exactly when the body names a member and some loan of that
   * member is active or has no status; settled or other loans never block.
   */
  function Guard(body: JsObject, loans: seq<Loan>): (r: GuardResult)
    ensures r == Next || r == Refused(400)
    ensures r == Refused(400) <==>
      Truthy(Get(body, "memberId")) &&
      exists i :: 0 <= i < |loans| && SameId(loans[i].memberId, Get(body, "memberId")) && Active(loans[i])
  {
    var memberId := Get(body, "memberId");
    if !Truthy(memberId) then Next
    else if HasActive(loans, memberId) then Refused(400)
    else Next
  }

  /** Each member has at most one active loan. */
  predicate OneActiveEach(loans: seq<Loan>) {
    forall i, j :: 0 <= i < j < |loans| && Active(loans[i]) && Active(loans[j]) ==>
      !SameId(loans[i].memberId, loans[j].memberId)
  }

  /**
   * Adding a loan for the member the guard let through keeps every member
   * at one active loan at most. A body without a member id passes the guard
   * unchecked, so it is excluded here.
   */
  lemma GuardKeepsOneActive(body: JsObject, loans: seq<Loan>, loan: Loan)
    requires OneActiveEach(loans)
    requires Truthy(Get(body, "memberId")) && Guard(body, loans) == Next
    requires SameId(loan.memberId, Get(body, "memberId"))
    ensures OneActiveEach(loans + [loan])
  {
    var all := loans + [loan];
    forall i, j | 0 <= i < j < |all| && Active(all[i]) && Active(all[j])
      ensures !SameId(all[i].memberId, all[j].memberId)
    {
      if j == |loans| {
        assert !Blocks(loans[i], Get(body, "memberId"));
      } else {
        assert all[i] == loans[i] && all[j] == loans[j];
      }
    }
  }
}
