/**
 * The records of the fund's database and the shared, mutable `db` object the
 * route handlers and the reminder job read and update in place.
 *
 * Ids and chat ids are kept as the JSON values they are stored as; the code
 * always compares them through `String(...)`. Amounts are integers, and an
 * absent amount field reads as 0 (every reader writes `x || 0` or `x ?? 0`).
 * Timestamps are the millisecond counts the ISO texts denote.
 */
module Store {
  import opened Js

  datatype Member = Member(
    id: JsVal,
    fullName: JsVal,
    nationalId: JsVal,
    telegramChatId: JsVal,
    deposit: int,
    loanAmount: int,
    loanBalance: int)

  datatype Loan = Loan(
    id: JsVal,
    memberId: JsVal,
    amount: int,
    date: JsVal,
    dueMonths: int,
    status: JsVal,
    /** `reminderSent`, keyed `m{month}-{stage}`; an absent map is the empty map. */
    reminderSent: map<string, JsVal>)

  /** Why a payment was recorded; the code writes a fixed Persian note for each. */
  datatype Note = InstallmentNote | DepositNote | LoanRepaymentNote | LoanExcessNote | ReceiptNote | OtherNote(text: string)

  datatype Payment = Payment(
    id: JsVal,
    memberId: JsVal,
    createdAt: int,
    receiptImagePath: Option<string>,
    amount: int,
    date: string,
    kind: string,
    note: Note)

  datatype Receipt = Receipt(
    id: JsVal,
    memberId: JsVal,
    memberName: JsVal,
    imagePath: string,
    status: JsVal,
    approvedAt: Option<int>,
    rejectedAt: Option<int>,
    rejectMessage: Option<string>)

  datatype Fund = Fund(id: string, cashBalance: int)

  /** `[{ id: 'main', cashBalance: 0 }]`. */
  const EMPTY_FUND: seq<Fund> := [Fund("main", 0)]

  /** `String(a) === String(b)`, the way every handler compares ids. */
  predicate SameId(a: JsVal, b: JsVal) {
    ToStr(a) == ToStr(b)
  }

  /** The in-memory database every route shares. Every collection is taken to be present. */
  class Db {
    var users: seq<JsObject>
    var members: seq<Member>
    var payments: seq<Payment>
    var loans: seq<Loan>
    var fundLog: seq<JsObject>
    var fund: seq<Fund>
    var loanRequests: seq<JsObject>
    var receiptSubmissions: seq<Receipt>
    /** `db.telegramSettings`, which may be missing altogether. */
    var telegramSettings: Option<JsObject>

    /** `db.telegramSettings || {}`. */
    function Settings(): JsObject
      reads this
    {
      telegramSettings.GetOr(map[])
    }
  }
}
