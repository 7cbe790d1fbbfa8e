/**
 * Receipt submissions: a member's photographed payment receipt waits as
 * `pending` until an administrator approves it (recording one or two
 * payments and moving money between the member's loan balance and deposit)
 * or rejects it with a message. Approval also sends templated notices.
 */
module Receipts {
  import opened Js
  import opened Strings
  import opened Lists
  import opened Store
  import opened Shamsi
  import opened Targets

  // ---------------------------------------------------------------------
  // `formatTemplate`

  /** `\w` in a JavaScript regular expression: ASCII letters, digits and `_`. */
  predicate IsWordChar(c: char) {
    'a' <= c <= 'z' || 'A' <= c <= 'Z' || '0' <= c <= '9' || c == '_'
  }

  /** The number of word characters `s` starts with. */
  function WordRun(s: string): (n: nat)
    ensures n <= |s|
    decreases |s|
  {
    if s != [] && IsWordChar(s[0]) then 1 + WordRun(s[1..]) else 0
  }

  /** `ctx[key] != null ? String(ctx[key]) : ''`. */
  function Lookup(ctx: JsObject, key: string): string {
    var v := Get(ctx, key);
    if IsNullish(v) then "" else ToStr(v)
  }

  /**
   * `tpl.replace(/\{(\w+)\}/g, …)`: scanning from the left, each `{word}`
   * becomes the context value of `word` and every other character stays.
   */
  function Fill(s: string, ctx: JsObject): (r: string)
    decreases |s|
  {
    if s == [] then []
    else
      var n := WordRun(s[1..]);
      if s[0] == '{' && n > 0 && n + 1 < |s| && s[n + 1] == '}' then
        Lookup(ctx, s[1..n + 1]) + Fill(s[n + 2..], ctx)
      else
        [s[0]] + Fill(s[1..], ctx)
  }

  /** `formatTemplate(tpl, ctx)`: '' unless the template is a non-empty string. */
  function FormatTemplate(tpl: JsVal, ctx: JsObject): (r: string)
    ensures !tpl.Str? ==> r == ""
    ensures tpl.Str? ==> r == Fill(tpl.s, ctx)
  {
    if !Truthy(tpl) || !tpl.Str? then "" else Fill(tpl.s, ctx)
  }

  /** A template written as literal text and placeholders. */
  datatype Piece = Text(t: string) | Hole(key: string)

  /** The template text: each hole written as `{key}`. */
  function Print(ps: seq<Piece>): string {
    if ps == [] then []
    else
      match ps[0]
      case Text(t) => t + Print(ps[1..])
      case Hole(k) => "{" + k + "}" + Print(ps[1..])
  }

  /** The intended rendering: literal text as it is, each hole replaced by its value. */
  function Render(ps: seq<Piece>, ctx: JsObject): string {
    if ps == [] then []
    else
      match ps[0]
      case Text(t) => t + Render(ps[1..], ctx)
      case Hole(k) => Lookup(ctx, k) + Render(ps[1..], ctx)
  }

  predicate IsKey(k: string) {
    k != [] && forall i :: 0 <= i < |k| ==> IsWordChar(k[i])
  }

  /** Literal text without `{`, and holes named by one or more word characters. */
  predicate WellFormed(ps: seq<Piece>) {
    forall i :: 0 <= i < |ps| ==> match ps[i] case Text(t) => '{' !in t case Hole(k) => IsKey(k)
  }

  /** Filling the printed template renders it: every placeholder is replaced and nothing else changes. */
  lemma {:induction false} FillPrint(ps: seq<Piece>, ctx: JsObject)
    requires WellFormed(ps)
    ensures Fill(Print(ps), ctx) == Render(ps, ctx)
    decreases |ps|
  {
    if ps != [] {
      assert WellFormed(ps[1..]) by {
        forall i | 0 <= i < |ps[1..]| ensures match ps[1..][i] case Text(t) => '{' !in t case Hole(k) => IsKey(k) {
          assert ps[1..][i] == ps[i + 1];
        }
      }
      FillPrint(ps[1..], ctx);
      match ps[0]
      case Text(t) =>
        FillText(t, Print(ps[1..]), ctx);
      case Hole(k) =>
        FillHole(k, Print(ps[1..]), ctx);
        assert "{" + k + "}" + Print(ps[1..]) == ['{'] + k + ['}'] + Print(ps[1..]);
    }
  }

  /** Text without `{` passes through unchanged. */
  lemma {:induction false} FillText(t: string, rest: string, ctx: JsObject)
    requires '{' !in t
    ensures Fill(t + rest, ctx) == t + Fill(rest, ctx)
    decreases |t|
  {
    if t != [] {
      assert (t + rest)[0] == t[0] && (t + rest)[1..] == t[1..] + rest;
      assert '{' !in t[1..];
      FillText(t[1..], rest, ctx);
      assert t == [t[0]] + t[1..];
    } else {
      assert t + rest == rest;
    }
  }

  /** One placeholder is replaced by its context value. */
  lemma FillHole(k: string, rest: string, ctx: JsObject)
    requires IsKey(k)
    ensures Fill(['{'] + k + ['}'] + rest, ctx) == Lookup(ctx, k) + Fill(rest, ctx)
  {
    var s := ['{'] + k + ['}'] + rest;
    var n := |k|;
    assert s[1..] == k + (['}'] + rest);
    WordRunOf(k, rest);
    assert s[0] == '{' && s[n + 1] == '}' && 0 < n && n + 1 < |s|;
    assert s[1..n + 1] == k;
    assert s[n + 2..] == rest;
  }

  lemma {:induction false} WordRunOf(k: string, rest: string)
    requires forall i :: 0 <= i < |k| ==> IsWordChar(k[i])
    ensures WordRun(k + (['}'] + rest)) == |k|
    decreases |k|
  {
    if k == [] {
      assert k + (['}'] + rest) == ['}'] + rest;
    } else {
      assert (k + (['}'] + rest))[1..] == k[1..] + (['}'] + rest);
      WordRunOf(k[1..], rest);
    }
  }

  // ---------------------------------------------------------------------
  // Approval: validation

  /** The receipt types an administrator can pick; anything unknown is a contribution. */
  datatype ReceiptType = ContributionRepayment | Repayment | Contribution

  function TypeOf(v: JsVal): ReceiptType {
    if v == Str("contribution_repayment") then ContributionRepayment
    else if v == Str("repayment") then Repayment
    else Contribution
  }

  /** `(body.date) ? String(body.date).trim() : ''`. */
  function DateText(v: JsVal): string {
    if Truthy(v) then Trim(ToStr(v)) else ""
  }

  /** A loan that counts as the member's active one: status `active`, null or absent. */
  predicate ActiveLoanOf(l: Loan, memberId: JsVal) {
    SameId(l.memberId, memberId) && (l.status == Str("active") || IsNullish(l.status))
  }

  /** The outcome of the approve handler's checks. */
  datatype Verdict =
    | Refused(status: int)
    | Accepted(ri: nat, mi: nat, date: string, kind: ReceiptType, installment: int)

  /**
   * The approve handler's checks, in its order: the receipt must exist
   * (404), be pending (400) and name an existing member (404); the amount
   * must be positive and the date non-blank (400); a `contribution_repayment`
   * needs an active loan with a non-zero term (400) and at least one
   * installment's worth of money (400).
   */
  function CheckApproval(receipts: seq<Receipt>, members: seq<Member>, loans: seq<Loan>,
                         id: JsVal, amount: int, date: JsVal, typeRaw: JsVal): (v: Verdict)
    ensures v.Refused? ==> v.status == 400 || v.status == 404
    ensures v.Accepted? ==> v.ri < |receipts| && v.mi < |members| && amount > 0 && v.date != ""
    ensures v.Accepted? ==> receipts[v.ri].status == Str("pending") && SameId(receipts[v.ri].id, id)
    ensures v.Accepted? && v.kind == ContributionRepayment ==> amount >= v.installment
  {
    var ri := FindIndex(receipts, (r: Receipt) => SameId(r.id, id));
    if ri < 0 then Refused(404)
    else if receipts[ri].status != Str("pending") then Refused(400)
    else
      var mi := FindIndex(members, (m: Member) => SameId(m.id, receipts[ri].memberId));
      if mi < 0 then Refused(404)
      else
        var dateStr := DateText(date);
        if amount <= 0 || dateStr == "" then Refused(400)
        else if TypeOf(typeRaw) == ContributionRepayment then
          var li := FindIndex(loans, (l: Loan) => ActiveLoanOf(l, receipts[ri].memberId));
          if li < 0 || loans[li].dueMonths == 0 then Refused(400)
          else
            var installment := FloorDiv(loans[li].amount, loans[li].dueMonths);
            if amount < installment then Refused(400)
            else Accepted(ri, mi, dateStr, ContributionRepayment, installment)
        else Accepted(ri, mi, dateStr, TypeOf(typeRaw), 0)
  }

  /** An id that no receipt has is answered with 404. */
  lemma UnknownReceipt(receipts: seq<Receipt>, members: seq<Member>, loans: seq<Loan>,
                       id: JsVal, amount: int, date: JsVal, typeRaw: JsVal)
    requires forall i :: 0 <= i < |receipts| ==> !SameId(receipts[i].id, id)
    ensures CheckApproval(receipts, members, loans, id, amount, date, typeRaw) == Refused(404)
  {
    var p := (r: Receipt) => SameId(r.id, id);
    assert forall i :: 0 <= i < |receipts| ==> !p(receipts[i]);
    FindIndexAny(receipts, p);
  }

  // ---------------------------------------------------------------------
  // Approval: how the money is booked

  /** One payment the handler pushes, before it gets its id. */
  datatype Entry = Entry(amount: int, kind: string, note: Note)

  /** The payments pushed and the member's new loan balance and deposit. */
  datatype Booking = Booking(entries: seq<Entry>, balance: int, deposit: int)

  function Total(es: seq<Entry>): int {
    if es == [] then 0 else es[0].amount + Total(es[1..])
  }

  /** The money of the entries of one kind. */
  function TotalOf(es: seq<Entry>, kind: string): int {
    if es == [] then 0 else (if es[0].kind == kind then es[0].amount else 0) + TotalOf(es[1..], kind)
  }

  /**
   * The three branches of the approve handler:
   * - `contribution_repayment`: one installment is repaid and the rest, if
   *   any, goes to the deposit;
   * - `repayment`: the loan balance is repaid and an excess over a positive
   *   balance goes to the deposit;
   * - anything else: the whole amount goes to the deposit.
   */
  function Book(kind: ReceiptType, amount: int, installment: int, balance: int, deposit: int): (b: Booking)
    requires kind == ContributionRepayment ==> amount >= installment
    ensures Total(b.entries) == amount
    ensures b.deposit == deposit + TotalOf(b.entries, "contribution")
    ensures kind != Contribution ==> b.balance == Max0(balance - TotalOf(b.entries, "repayment"))
    ensures kind == Contribution ==> b.balance == balance && TotalOf(b.entries, "repayment") == 0
    ensures 1 <= |b.entries| <= 2
  {
    match kind
    case ContributionRepayment =>
      var rest := amount - installment;
      var first := Entry(installment, "repayment", InstallmentNote);
      if rest > 0 then
        var es := [first, Entry(rest, "contribution", DepositNote)];
        TotalsOfTwo(es);
        Booking(es, Max0(balance - installment), deposit + rest)
      else
        TotalsOfOne(first);
        Booking([first], Max0(balance - installment), deposit + rest)
    case Repayment =>
      if amount > balance && balance > 0 then
        var es := [Entry(balance, "repayment", LoanRepaymentNote), Entry(amount - balance, "contribution", LoanExcessNote)];
        TotalsOfTwo(es);
        Booking(es, 0, deposit + (amount - balance))
      else
        TotalsOfOne(Entry(amount, "repayment", ReceiptNote));
        Booking([Entry(amount, "repayment", ReceiptNote)], Max0(balance - amount), deposit)
    case Contribution =>
      TotalsOfOne(Entry(amount, "contribution", ReceiptNote));
      Booking([Entry(amount, "contribution", ReceiptNote)], balance, deposit + amount)
  }

  lemma TotalsOfOne(e: Entry)
    ensures Total([e]) == e.amount
    ensures forall kind :: TotalOf([e], kind) == if e.kind == kind then e.amount else 0
  {
    assert [e][1..] == [];
  }

  lemma TotalsOfTwo(es: seq<Entry>)
    requires |es| == 2
    ensures Total(es) == es[0].amount + es[1].amount
    ensures forall kind :: TotalOf(es, kind) == (if es[0].kind == kind then es[0].amount else 0) + (if es[1].kind == kind then es[1].amount else 0)
  {
    assert es[1..] == [es[1]];
    TotalsOfOne(es[1]);
  }

  /**
   * A repayment never leaves a negative balance and never raises a
   * non-negative one, unless the installment itself is negative (a loan
   * with a negative amount or term); the deposit never shrinks.
   */
  lemma BookBalance(kind: ReceiptType, amount: int, installment: int, balance: int, deposit: int)
    requires kind == ContributionRepayment ==> amount >= installment
    requires amount > 0
    ensures var b := Book(kind, amount, installment, balance, deposit);
      (kind != Contribution ==> 0 <= b.balance)
      && (kind == Repayment || (kind == ContributionRepayment && installment >= 0) ==> b.balance <= Max0(balance))
      && (kind == ContributionRepayment && installment < 0 ==> b.balance == Max0(balance - installment))
      && (kind == Contribution ==> b.balance == balance)
      && b.deposit >= deposit
  {
  }

  // ---------------------------------------------------------------------
  // Approval: payment ids

  /** `Number(p.id) || 0` for ids stored as numbers or as unsigned decimal text. */
  function IdNumber(v: JsVal): int {
    match v
    case Num(n) => n
    case Bool(b) => if b then 1 else 0
    case Str(s) => if AllDigits(Trim(s)) then ParseDigits(Trim(s)) else 0
    case _ => 0
  }

  /** `Math.max(...payments.map((p) => Number(p.id) || 0))`. */
  function MaxId(ps: seq<Payment>): int
    requires ps != []
  {
    if |ps| == 1 then IdNumber(ps[0].id)
    else
      var rest := MaxId(ps[1..]);
      if IdNumber(ps[0].id) > rest then IdNumber(ps[0].id) else rest
  }

  /** The first id the handler hands out: one past the largest, or 1 for no payments. */
  function NextPayId(ps: seq<Payment>): int {
    if ps == [] then 1 else MaxId(ps) + 1
  }

  /** Every existing payment's id is below the next one, so the new ids are fresh. */
  lemma {:induction false} NextPayIdFresh(ps: seq<Payment>)
    ensures forall i :: 0 <= i < |ps| ==> IdNumber(ps[i].id) < NextPayId(ps)
    decreases |ps|
  {
    if |ps| > 1 {
      NextPayIdFresh(ps[1..]);
      forall i | 1 <= i < |ps| ensures IdNumber(ps[i].id) < NextPayId(ps) {
        assert ps[i] == ps[1..][i - 1];
      }
    }
  }

  /** The payments one approval pushes: entry `k` gets id `first + k`. */
  function Pushed(es: seq<Entry>, first: int, memberId: JsVal, now: int, image: Option<string>, date: string): (r: seq<Payment>)
    ensures |r| == |es|
  {
    if es == [] then []
    else
      [Payment(Num(first), memberId, now, image, es[0].amount, date, es[0].kind, es[0].note)]
        + Pushed(es[1..], first + 1, memberId, now, image, date)
  }

  /** The pushed ids run upward from `first`, one apart. */
  lemma {:induction false} PushedIds(es: seq<Entry>, first: int, memberId: JsVal, now: int, image: Option<string>, date: string)
    ensures var r := Pushed(es, first, memberId, now, image, date);
      forall k :: 0 <= k < |r| ==> r[k].id == Num(first + k) && r[k].amount == es[k].amount && r[k].kind == es[k].kind
    decreases |es|
  {
    if es != [] {
      PushedIds(es[1..], first + 1, memberId, now, image, date);
    }
  }

  /** `rec.imagePath || undefined`. */
  function ImageOf(rec: Receipt): Option<string> {
    if rec.imagePath != "" then Some(rec.imagePath) else None
  }

  /** The member as the approval leaves it. */
  function BookedMember(m: Member, b: Booking): Member {
    m.(loanBalance := b.balance, deposit := b.deposit)
  }

  // ---------------------------------------------------------------------
  // The handlers

  /** What a handler does with a request: answers with a status, or never answers because it threw. */
  datatype Response = Hang | Status(code: int)

  /**
   * `POST /receipt-submissions/:id/approve` on the shared database; `now` is
   * the time of the request. The changes are made in memory first; then
   * the database is written (`persisted` is whether that succeeded: a failed
   * write throws, and no notice and no answer follow). Then the notices go
   * out (`bot` is whether the bot is running, `env` the administrators'
   * group from the environment), and the answer is 200 unless preparing the
   * main administrator's notice threw.
   */
  method Approve(db: Db, id: JsVal, amount: int, date: JsVal, typeRaw: JsVal, now: int, persisted: bool, bot: bool, env: JsVal)
    returns (answer: Response, sent: seq<Notice>)
    modifies db`payments, db`members, db`receiptSubmissions
    ensures var v := CheckApproval(old(db.receiptSubmissions), old(db.members), db.loans, id, amount, date, typeRaw);
      v.Refused? ==> answer == Status(v.status) && sent == [] && unchanged(db)
    ensures var v := CheckApproval(old(db.receiptSubmissions), old(db.members), db.loans, id, amount, date, typeRaw);
      v.Accepted? ==>
        var rec := old(db.receiptSubmissions)[v.ri];
        var m := old(db.members)[v.mi];
        var b := Book(v.kind, amount, v.installment, m.loanBalance, m.deposit);
        var n := ApprovalNotices(bot, old(db.Settings()), env, rec, m, amount, v.date);
        && db.payments == old(db.payments) + Pushed(b.entries, NextPayId(old(db.payments)), rec.memberId, now, ImageOf(rec), v.date)
        && db.members == old(db.members)[v.mi := BookedMember(m, b)]
        && db.receiptSubmissions == old(db.receiptSubmissions)[v.ri := rec.(status := Str("approved"), approvedAt := Some(now))]
        && sent == (if persisted then n.sent else [])
        && answer == (if persisted && n.replied then Status(200) else Hang)
  {
    var v := CheckApproval(db.receiptSubmissions, db.members, db.loans, id, amount, date, typeRaw);
    if v.Refused? {
      return Status(v.status), [];
    }
    var rec, m, ts := db.receiptSubmissions[v.ri], db.members[v.mi], db.Settings();
    ApplyApproval(db, v, amount, now);
    if !persisted {
      return Hang, [];
    }
    var n := ApprovalNotices(bot, ts, env, rec, m, amount, v.date);
    sent := n.sent;
    answer := if n.replied then Status(200) else Hang;
  }

  /** The changes of an accepted approval: the payments pushed, the member booked, the receipt approved. */
  method ApplyApproval(db: Db, v: Verdict, amount: int, now: int)
    requires v.Accepted? && v.ri < |db.receiptSubmissions| && v.mi < |db.members|
    requires v.kind == ContributionRepayment ==> amount >= v.installment
    modifies db`payments, db`members, db`receiptSubmissions
    ensures var rec := old(db.receiptSubmissions)[v.ri];
      var m := old(db.members)[v.mi];
      var b := Book(v.kind, amount, v.installment, m.loanBalance, m.deposit);
      db.payments == old(db.payments) + Pushed(b.entries, NextPayId(old(db.payments)), rec.memberId, now, ImageOf(rec), v.date)
      && db.members == old(db.members)[v.mi := BookedMember(m, b)]
      && db.receiptSubmissions == old(db.receiptSubmissions)[v.ri := rec.(status := Str("approved"), approvedAt := Some(now))]
  {
    var rec := db.receiptSubmissions[v.ri];
    var pushed, m := BookPayments(db.members[v.mi], rec, v.kind, amount, v.installment, NextPayId(db.payments), now, v.date);
    db.payments := db.payments + pushed;
    db.members := db.members[v.mi := m];
    db.receiptSubmissions := db.receiptSubmissions[v.ri := rec.(status := Str("approved"), approvedAt := Some(now))];
  }

  /** The branches of the approve handler: the payments pushed from id `payId` on, and the member updated in place. */
  method BookPayments(m: Member, rec: Receipt, kind: ReceiptType, amount: int, installment: int, payId: int, now: int, date: string)
    returns (pushed: seq<Payment>, m': Member)
    requires kind == ContributionRepayment ==> amount >= installment
    ensures var b := Book(kind, amount, installment, m.loanBalance, m.deposit);
      pushed == Pushed(b.entries, payId, rec.memberId, now, ImageOf(rec), date) && m' == BookedMember(m, b)
  {
    var image := ImageOf(rec);
    var id := payId;
    pushed := [];
    m' := m;
    match kind {
      case ContributionRepayment =>
        var rest := amount - installment;
        pushed, id := PushPayment(pushed, id, Entry(installment, "repayment", InstallmentNote), rec.memberId, now, image, date);
        if rest > 0 {
          pushed, id := PushPayment(pushed, id, Entry(rest, "contribution", DepositNote), rec.memberId, now, image, date);
        }
        m' := m'.(loanBalance := Max0(m'.loanBalance - installment), deposit := m'.deposit + rest);
      case Repayment =>
        var loanBal := m'.loanBalance;
        if amount > loanBal && loanBal > 0 {
          pushed, id := PushPayment(pushed, id, Entry(loanBal, "repayment", LoanRepaymentNote), rec.memberId, now, image, date);
          pushed, id := PushPayment(pushed, id, Entry(amount - loanBal, "contribution", LoanExcessNote), rec.memberId, now, image, date);
          m' := m'.(loanBalance := 0, deposit := m'.deposit + (amount - loanBal));
        } else {
          pushed, id := PushPayment(pushed, id, Entry(amount, "repayment", ReceiptNote), rec.memberId, now, image, date);
          m' := m'.(loanBalance := Max0(loanBal - amount));
        }
      case Contribution =>
        pushed, id := PushPayment(pushed, id, Entry(amount, "contribution", ReceiptNote), rec.memberId, now, image, date);
        m' := m'.(deposit := m'.deposit + amount);
    }
  }

  /** `pushPayment(payload)`: the payment gets the current id and the counter moves on. */
  method PushPayment(pushed: seq<Payment>, payId: int, e: Entry, memberId: JsVal, now: int, image: Option<string>, date: string)
    returns (pushed': seq<Payment>, payId': int)
    ensures pushed' == pushed + [Payment(Num(payId), memberId, now, image, e.amount, date, e.kind, e.note)]
    ensures payId' == payId + 1
  {
    pushed' := pushed + [Payment(Num(payId), memberId, now, image, e.amount, date, e.kind, e.note)];
    payId' := payId + 1;
  }

  /** An approved receipt is no longer pending: approving it again is refused with 400. */
  lemma ApproveOnce(receipts: seq<Receipt>, members: seq<Member>, loans: seq<Loan>,
                    id: JsVal, amount: int, date: JsVal, typeRaw: JsVal, now: int,
                    amount': int, date': JsVal, typeRaw': JsVal)
    requires CheckApproval(receipts, members, loans, id, amount, date, typeRaw).Accepted?
    ensures var ri := CheckApproval(receipts, members, loans, id, amount, date, typeRaw).ri;
      var receipts' := receipts[ri := receipts[ri].(status := Str("approved"), approvedAt := Some(now))];
      CheckApproval(receipts', members, loans, id, amount', date', typeRaw') == Refused(400)
  {
    var ri := CheckApproval(receipts, members, loans, id, amount, date, typeRaw).ri;
    var receipts' := receipts[ri := receipts[ri].(status := Str("approved"), approvedAt := Some(now))];
    FirstMatchKept(receipts, id, ri, receipts'[ri]);
  }

  /** Changing the first receipt with a given id, but not its id, keeps it the first. */
  lemma FirstMatchKept(receipts: seq<Receipt>, id: JsVal, ri: nat, rec: Receipt)
    requires ri < |receipts| && FindIndex(receipts, (r: Receipt) => SameId(r.id, id)) == ri
    requires rec.id == receipts[ri].id
    ensures FindIndex(receipts[ri := rec], (r: Receipt) => SameId(r.id, id)) == ri
  {
    var p := (r: Receipt) => SameId(r.id, id);
    var r' := receipts[ri := rec];
    assert p(r'[ri]);
    forall k | 0 <= k < ri ensures !p(r'[k]) {
      assert r'[k] == receipts[k];
    }
    FindIndexIs(r', p, ri);
  }

  /** The reply text of a rejection: the given message trimmed, or a fixed default. */
  const DEFAULT_REJECT_MESSAGE: string := "رسید شما تأیید نشد. در صورت نیاز مجدداً ارسال کنید."

  function RejectMessage(message: JsVal): string {
    if Truthy(message) then Trim(ToStr(message)) else DEFAULT_REJECT_MESSAGE
  }

  /** The reject handler's checks: the receipt must exist (404), be pending (400) and name an existing member (404). */
  function CheckRejection(receipts: seq<Receipt>, members: seq<Member>, id: JsVal): (v: Verdict)
    ensures v.Refused? ==> v.status == 400 || v.status == 404
    ensures v.Accepted? ==> v.ri < |receipts| && receipts[v.ri].status == Str("pending") && SameId(receipts[v.ri].id, id)
    ensures v.Accepted? ==> v.mi < |members| && SameId(members[v.mi].id, receipts[v.ri].memberId)
  {
    var ri := FindIndex(receipts, (r: Receipt) => SameId(r.id, id));
    if ri < 0 then Refused(404)
    else if receipts[ri].status != Str("pending") then Refused(400)
    else
      var mi := FindIndex(members, (m: Member) => SameId(m.id, receipts[ri].memberId));
      if mi < 0 then Refused(404)
      else Accepted(ri, mi, "", Contribution, 0)
  }

  /** The head of the member's rejection notice. */
  const REJECT_NOTICE_HEAD: string := "❌ رسید پرداخت شما تأیید نشد.\n\n"

  /** The rejection notice: one, to the member's chat, when the bot runs and the member has a chat id; else none. */
  function RejectNotices(bot: bool, member: Member, message: JsVal): (r: seq<Notice>)
    ensures |r| <= 1
    ensures r != [] <==> bot && Truthy(member.telegramChatId)
    ensures forall k :: 0 <= k < |r| ==>
      r[k].chat == ToStr(member.telegramChatId) && r[k].text == REJECT_NOTICE_HEAD + RejectMessage(message)
  {
    if bot && Truthy(member.telegramChatId) then
      [Notice(ToStr(member.telegramChatId), REJECT_NOTICE_HEAD + RejectMessage(message))]
    else []
  }

  /**
   * `POST /receipt-submissions/:id/reject`: only the receipt changes, and
   * only a pending one. The write that follows may throw (`persisted`
   * false): then nothing is sent and no answer goes out. Otherwise the
   * member is told, with the very message stored on the receipt.
   */
  method Reject(db: Db, id: JsVal, message: JsVal, now: int, persisted: bool, bot: bool) returns (answer: Response, sent: seq<Notice>)
    modifies db`receiptSubmissions
    ensures var v := CheckRejection(old(db.receiptSubmissions), db.members, id);
      match v
      case Refused(code) => answer == Status(code) && sent == [] && unchanged(db)
      case Accepted(ri, mi, _, _, _) =>
        && db.receiptSubmissions == old(db.receiptSubmissions)[ri := old(db.receiptSubmissions)[ri].(
             status := Str("rejected"), rejectedAt := Some(now), rejectMessage := Some(RejectMessage(message)))]
        && sent == (if persisted then RejectNotices(bot, db.members[mi], message) else [])
        && answer == (if persisted then Status(200) else Hang)
    ensures var v := CheckRejection(old(db.receiptSubmissions), db.members, id);
      v.Accepted? && sent != [] ==>
        sent == [Notice(ToStr(db.members[v.mi].telegramChatId), REJECT_NOTICE_HEAD + db.receiptSubmissions[v.ri].rejectMessage.value)]
  {
    var v := CheckRejection(db.receiptSubmissions, db.members, id);
    if v.Refused? {
      return Status(v.status), [];
    }
    var rec := db.receiptSubmissions[v.ri];
    rec := rec.(status := Str("rejected"), rejectedAt := Some(now), rejectMessage := Some(RejectMessage(message)));
    db.receiptSubmissions := db.receiptSubmissions[v.ri := rec];
    if !persisted {
      return Hang, [];
    }
    sent := RejectNotices(bot, db.members[v.mi], message);
    answer := Status(200);
  }

  /** A receipt is decided once: after a rejection, neither approval nor a second rejection is accepted. */
  lemma RejectOnce(receipts: seq<Receipt>, members: seq<Member>, loans: seq<Loan>, id: JsVal, now: int, message: JsVal,
                   amount: int, date: JsVal, typeRaw: JsVal)
    requires CheckRejection(receipts, members, id).Accepted?
    ensures var ri := CheckRejection(receipts, members, id).ri;
      var receipts' := receipts[ri := receipts[ri].(status := Str("rejected"), rejectedAt := Some(now), rejectMessage := Some(RejectMessage(message)))];
      CheckRejection(receipts', members, id) == Refused(400)
      && CheckApproval(receipts', members, loans, id, amount, date, typeRaw) == Refused(400)
  {
    var ri := CheckRejection(receipts, members, id).ri;
    var receipts' := receipts[ri := receipts[ri].(status := Str("rejected"), rejectedAt := Some(now), rejectMessage := Some(RejectMessage(message)))];
    FirstMatchKept(receipts, id, ri, receipts'[ri]);
  }

  // ---------------------------------------------------------------------
  // Approval notices

  /** A text sent to one chat. */
  datatype Notice = Notice(chat: string, text: string)

  /** What happens after the approval is stored: the notices, and whether the reply goes out. */
  datatype Notices = Notices(sent: seq<Notice>, replied: bool)

  const DEFAULT_MEMBER_TEMPLATE: string := "پرداخت شما به مبلغ {amount} تومان در تاریخ {date} در سیستم ثبت شد."
  const DEFAULT_GROUP_TEMPLATE: string := "✅ پرداخت عضو «{memberName}» به مبلغ {amount} تومان در تاریخ {date} در سیستم ثبت شد."

  const NO_NAME: string := "عضو بدون نام"

  /** `rec.memberName || member.fullName || 'عضو بدون نام'`: the name the notices carry is never blank. */
  function NoticeName(rec: Receipt, member: Member): (r: JsVal)
    ensures Truthy(r)
    ensures Truthy(rec.memberName) ==> r == rec.memberName
    ensures !Truthy(rec.memberName) && Truthy(member.fullName) ==> r == member.fullName
    ensures !Truthy(rec.memberName) && !Truthy(member.fullName) ==> r == Str(NO_NAME)
  {
    if Truthy(rec.memberName) then rec.memberName
    else if Truthy(member.fullName) then member.fullName
    else Str(NO_NAME)
  }

  /** `{ memberName, amount: amountFa, date: dateStr }`. */
  function Context(memberName: JsVal, amountText: string, date: string): JsObject {
    map["memberName" := memberName, "amount" := Str(amountText), "date" := Str(date)]
  }

  function ToAll(targets: seq<string>, text: string): (r: seq<Notice>)
    ensures |r| == |targets| && forall i :: 0 <= i < |r| ==> r[i] == Notice(targets[i], text)
  {
    if targets == [] then [] else [Notice(targets[0], text)] + ToAll(targets[1..], text)
  }

  /** `v || fallback` for a template setting. */
  function TemplateOr(v: JsVal, fallback: string): JsVal {
    if Truthy(v) then v else Str(fallback)
  }

  /** The member's notice and the admin targets' notices, which go out before the main administrator's. */
  function FirstNotices(bot: bool, ts: JsObject, env: JsVal, chatId: JsVal, forMember: string, forGroup: string): seq<Notice> {
    var toMember := if bot && Truthy(chatId) && NotFalse(Get(ts, "sendReceiptMember")) && forMember != "" then [Notice(ToStr(chatId), forMember)] else [];
    var toGroups := if bot && NotFalse(Get(ts, "sendReceiptGroup")) && forGroup != "" then ToAll(AdminTargets(ts, env), forGroup) else [];
    toMember + toGroups
  }

  /**
   * The notices of an approval: the member's (when it has a chat id), one
   * per admin target, then the main administrator's, whose text is its own
   * template, else the group text, else the member text. A `notifyTarget`
   * or `paymentAdminTemplate` that is truthy but not text makes `.trim`
   * throw: what was sent stays sent and no reply goes out.
   */
  function ApprovalNotices(bot: bool, ts: JsObject, env: JsVal, rec: Receipt, member: Member, amount: int, date: string): (r: Notices)
    ensures !bot ==> r.sent == []
  {
    var chatId := member.telegramChatId;
    var ctx := Context(NoticeName(rec, member), FormatNumTelegram(Some(amount)), date);
    var forMember := FormatTemplate(TemplateOr(Get(ts, "receiptMemberTemplate"), DEFAULT_MEMBER_TEMPLATE), ctx);
    var forGroup := FormatTemplate(TemplateOr(Get(ts, "receiptGroupTemplate"), DEFAULT_GROUP_TEMPLATE), ctx);
    Dispatch(bot, ts, env, chatId, ctx, forMember, forGroup)
  }

  /** The sending part of the approve handler, once the member and group texts are formatted. */
  function Dispatch(bot: bool, ts: JsObject, env: JsVal, chatId: JsVal, ctx: JsObject, forMember: string, forGroup: string): (r: Notices)
    ensures !bot ==> r.sent == []
  {
    var first := FirstNotices(bot, ts, env, chatId, forMember, forGroup);
    match TrimmedOr(Get(ts, "notifyTarget"))
    case None => Notices(first, false)
    case Some(notify) =>
      if bot && notify != "" && NotFalse(Get(ts, "sendPaymentToAdmin")) then
        match TrimmedOr(Get(ts, "paymentAdminTemplate"))
        case None => Notices(first, false)
        case Some(adminTpl) =>
          var text := if adminTpl != "" then FormatTemplate(Str(adminTpl), ctx)
            else if NotFalse(Get(ts, "sendReceiptGroup")) && forGroup != "" then forGroup
            else if NotFalse(Get(ts, "sendReceiptMember")) && forMember != "" then forMember
            else "";
          Notices(first + (if text != "" then [Notice(notify, text)] else []), true)
      else Notices(first, true)
  }

  /**
   * The notices start with the member's and the admin targets', followed by
   * at most the main administrator's; the reply is lost exactly when a
   * setting that is read with `.trim` is not text.
   */
  lemma DispatchShape(bot: bool, ts: JsObject, env: JsVal, chatId: JsVal, ctx: JsObject, forMember: string, forGroup: string)
    ensures var first := FirstNotices(bot, ts, env, chatId, forMember, forGroup);
      var r := Dispatch(bot, ts, env, chatId, ctx, forMember, forGroup);
      var notify := TrimmedOr(Get(ts, "notifyTarget"));
      |first| <= |r.sent| <= |first| + 1 && r.sent[..|first|] == first
      && (!r.replied <==> (notify.None? || (bot && notify.value != "" && NotFalse(Get(ts, "sendPaymentToAdmin"))
                                             && TrimmedOr(Get(ts, "paymentAdminTemplate")).None?)))
  {
  }

  /** Without its own template, the main administrator gets the group text whenever the groups get it. */
  lemma AdminGetsGroupText(ts: JsObject, env: JsVal, chatId: JsVal, ctx: JsObject, forMember: string, forGroup: string)
    requires TrimmedOr(Get(ts, "notifyTarget")) == Some(Trim(TextOr(Get(ts, "notifyTarget"))))
    requires Trim(TextOr(Get(ts, "notifyTarget"))) != "" && NotFalse(Get(ts, "sendPaymentToAdmin"))
    requires TrimmedOr(Get(ts, "paymentAdminTemplate")) == Some("")
    requires NotFalse(Get(ts, "sendReceiptGroup")) && forGroup != ""
    ensures var r := Dispatch(true, ts, env, chatId, ctx, forMember, forGroup);
      r.replied && r.sent[|r.sent| - 1] == Notice(Trim(TextOr(Get(ts, "notifyTarget"))), forGroup)
  {
  }

  /** With group notices on, every admin target receives the group text, in order, after the member's notice. */
  lemma GroupNoticesReachTargets(ts: JsObject, env: JsVal, chatId: JsVal, forMember: string, forGroup: string)
    requires NotFalse(Get(ts, "sendReceiptGroup")) && forGroup != ""
    ensures var first := FirstNotices(true, ts, env, chatId, forMember, forGroup);
      var skip := if Truthy(chatId) && NotFalse(Get(ts, "sendReceiptMember")) && forMember != "" then 1 else 0;
      |first| == skip + |AdminTargets(ts, env)|
      && forall i :: 0 <= i < |AdminTargets(ts, env)| ==> first[skip + i] == Notice(AdminTargets(ts, env)[i], forGroup)
  {
  }
}
