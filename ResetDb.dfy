/**
 * The administrator's "reset except members" operation on the shared
 * database, and the stand-alone script that writes the same reset out as a
 * fresh database file.
 */
module ResetDb {
  import opened Js
  import opened Store
  import Auth

  /** A member with its deposit, loan amount and loan balance set to zero. */
  function Zeroed(m: Member): (r: Member)
    ensures r.deposit == 0 && r.loanAmount == 0 && r.loanBalance == 0
    ensures r.id == m.id && r.fullName == m.fullName && r.nationalId == m.nationalId && r.telegramChatId == m.telegramChatId
  {
    m.(deposit := 0, loanAmount := 0, loanBalance := 0)
  }

  /** `members.map((m) => ({ ...m, deposit: 0, loanAmount: 0, loanBalance: 0 }))`. */
  function ZeroedMembers(members: seq<Member>): (r: seq<Member>)
    ensures |r| == |members|
    ensures forall i :: 0 <= i < |r| ==> r[i] == Zeroed(members[i])
  {
    if members == [] then [] else [Zeroed(members[0])] + ZeroedMembers(members[1..])
  }

  /** Every zeroed member owes nothing and holds nothing. */
  predicate AllZero(members: seq<Member>) {
    forall i :: 0 <= i < |members| ==> members[i].deposit == 0 && members[i].loanAmount == 0 && members[i].loanBalance == 0
  }

  /** Members already zeroed are left as they are, so zeroing twice is zeroing once. */
  lemma {:induction false} ZeroedFixed(members: seq<Member>)
    requires AllZero(members)
    ensures ZeroedMembers(members) == members
  {
    if members != [] {
      ZeroedFixed(members[1..]);
      assert members == [members[0]] + members[1..];
    }
  }

  lemma ZeroedIdempotent(members: seq<Member>)
    ensures ZeroedMembers(ZeroedMembers(members)) == ZeroedMembers(members)
  {
    ZeroedFixed(ZeroedMembers(members));
  }

  datatype Answer = Answer(status: int, success: bool)

  /** Who may reset: a user the header names, and one whose role is `admin`. */
  function Permission(users: seq<JsObject>, authorization: string): (r: Option<int>)
    ensures r == None || r == Some(401) || r == Some(403)
    ensures r == Some(401) <==> Auth.UserOfHeader(users, authorization).None?
    ensures r == None <==>
      Auth.UserOfHeader(users, authorization).Some? && Get(Auth.UserOfHeader(users, authorization).value, "role") == Str("admin")
  {
    match Auth.UserOfHeader(users, authorization)
    case None => Some(401)
    case Some(user) => if Get(user, "role") != Str("admin") then Some(403) else None
  }

  /**
   * The reset itself: users stay, members stay with their amounts zeroed,
   * every other collection is emptied, the fund is back to its single empty
   * record, and `telegramSettings` is not touched.
   */
  method ResetCollections(db: Db)
    modifies db
    ensures db.members == ZeroedMembers(old(db.members))
    ensures db.payments == [] && db.loans == [] && db.fundLog == [] && db.loanRequests == [] && db.receiptSubmissions == []
    ensures db.fund == EMPTY_FUND
    ensures db.users == old(db.users) && db.telegramSettings == old(db.telegramSettings)
  {
    db.members := ZeroedMembers(db.members);
    db.payments := [];
    db.loans := [];
    db.fundLog := [];
    db.fund := EMPTY_FUND;
    db.loanRequests := [];
    db.receiptSubmissions := [];
  }

  /**
   * `POST /admin/reset-db`. Refused requests (401, 403) change nothing;
   * an admin's request resets the collections. The answer is 500 when
   * writing the database out fails, after the reset has happened in memory.
   */
  method Reset(db: Db, authorization: string, persisted: bool) returns (answer: Answer)
    modifies db
    ensures answer.success <==> Permission(old(db.users), authorization).None? && persisted
    ensures answer.status == Permission(old(db.users), authorization).GetOr(if persisted then 200 else 500)
    ensures Permission(old(db.users), authorization).Some? ==> unchanged(db)
    ensures Permission(old(db.users), authorization).None? ==> db.members == ZeroedMembers(old(db.members))
    ensures Permission(old(db.users), authorization).None? ==>
      db.payments == [] && db.loans == [] && db.fundLog == [] && db.loanRequests == [] && db.receiptSubmissions == []
    ensures Permission(old(db.users), authorization).None? ==> db.fund == EMPTY_FUND
    ensures db.users == old(db.users) && db.telegramSettings == old(db.telegramSettings)
  {
    var refused := Permission(db.users, authorization);
    if refused.Some? {
      return Answer(refused.value, false);
    }
    ResetCollections(db);
    answer := if persisted then Answer(200, true) else Answer(500, false);
  }

  /**
   * Resetting twice leaves the database as resetting once: the second reset
   * finds members already zeroed and collections already empty. A refused
   * request is refused both times and changes nothing.
   */
  method ResetTwice(db: Db, authorization: string)
    modifies db
    ensures Permission(old(db.users), authorization).Some? ==> unchanged(db)
    ensures Permission(old(db.users), authorization).None? ==>
      && db.members == ZeroedMembers(old(db.members))
      && db.payments == [] && db.loans == [] && db.fundLog == [] && db.loanRequests == [] && db.receiptSubmissions == []
      && db.fund == EMPTY_FUND
    ensures db.users == old(db.users) && db.telegramSettings == old(db.telegramSettings)
  {
    var _ := Reset(db, authorization, true);
    ghost var once := db.members;
    var _ := Reset(db, authorization, true);
    if Permission(old(db.users), authorization).None? {
      ZeroedIdempotent(old(db.members));
      assert db.members == ZeroedMembers(once);
    }
  }

  /** The file the clean-up script writes: exactly these eight collections. */
  datatype Cleared = Cleared(
    users: seq<JsObject>,
    members: seq<Member>,
    payments: seq<Payment>,
    loans: seq<Loan>,
    fundLog: seq<JsObject>,
    fund: seq<Fund>,
    loanRequests: seq<JsObject>,
    receiptSubmissions: seq<Receipt>)

  /**
   * `clear-db-except-members.js` on a database file whose `users` and
   * `members` may be missing: users copied, members zeroed, the rest empty.
   */
  function Clear(users: Option<seq<JsObject>>, members: Option<seq<Member>>): (r: Cleared)
    ensures r.users == users.GetOr([])
    ensures |r.members| == |members.GetOr([])| && AllZero(r.members)
    ensures forall i :: 0 <= i < |r.members| ==>
      r.members[i] == members.value[i].(deposit := 0, loanAmount := 0, loanBalance := 0)
    ensures r.payments == [] && r.loans == [] && r.fundLog == [] && r.loanRequests == [] && r.receiptSubmissions == []
    ensures r.fund == [Fund("main", 0)]
  {
    Cleared(users.GetOr([]), ZeroedMembers(members.GetOr([])), [], [], [], EMPTY_FUND, [], [])
  }

  /**
   * The script and the route agree on every collection the file holds;
   * the route additionally keeps `telegramSettings`, which the file drops.
   */
  method ResetAgreesWithClear(db: Db, authorization: string) returns (file: Cleared)
    requires Permission(db.users, authorization).None?
    modifies db
    ensures file == Clear(Some(old(db.users)), Some(old(db.members)))
    ensures file == Cleared(db.users, db.members, db.payments, db.loans, db.fundLog, db.fund, db.loanRequests, db.receiptSubmissions)
    ensures db.telegramSettings == old(db.telegramSettings)
  {
    file := Clear(Some(db.users), Some(db.members));
    var _ := Reset(db, authorization, true);
  }
}
