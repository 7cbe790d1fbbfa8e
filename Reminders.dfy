/**
 * The hourly loan-reminder job (`runLoanReminders`), as a sweep over a
 * snapshot of the loans and members.
 *
 * For every active loan of a member with a Telegram chat, each unpaid
 * installment month is checked against today's date: an advance reminder
 * is sent on the configured days before its due date, and on the due day a
 * due reminder is sent once and repeated once, at least four hours later.
 * The per-installment record of what was sent lives in the loan's
 * `reminderSent` map and is written back with a PATCH built from the loan as
 * read at the start of the sweep. Afterwards, at most once per day, a digest
 * of overdue installments goes to the administrators, the admin groups and
 * the members concerned.
 *
 * Sends and PATCH requests are the sweep's effects, listed in the order the
 * job issues them; both may fail, and neither failure changes what the job
 * does next. Today's Solar Hijri date and the current time are parameters.
 */
module Reminders {
  import opened Js
  import opened Strings
  import opened Shamsi
  import opened Store
  import opened Targets
  import opened Lists

  // ---------------------------------------------------------------------
  // The per-installment record `reminderSent`

  /** `m${monthNum}-${type}`. */
  function Key(monthNum: int, stage: string): string {
    "m" + IntToStr(monthNum) + "-" + stage
  }

  /** Distinct (month, stage) pairs never share a key. */
  lemma KeyInjective(n1: nat, s1: string, n2: nat, s2: string)
    requires Key(n1, s1) == Key(n2, s2)
    ensures n1 == n2 && s1 == s2
  {
    var a, b := NatToStr(n1), NatToStr(n2);
    DigitsBeforeDash(a, s1, b, s2);
    NatToStrInjective(n1, n2);
  }

  /** Two digit strings each followed by a dash split a text at the same place. */
  lemma DigitsBeforeDash(a: string, s1: string, b: string, s2: string)
    requires AllDigits(a) && AllDigits(b)
    requires "m" + a + "-" + s1 == "m" + b + "-" + s2
    ensures a == b && s1 == s2
  {
    var k := "m" + a + "-" + s1;
    assert k[1 + |a|] == '-';
    assert k[1 + |b|] == '-';
    assert |a| == |b|;
    assert a == k[1..1 + |a|];
    assert b == k[1..1 + |b|];
    assert s1 == k[2 + |a|..];
    assert s2 == k[2 + |b|..];
  }

  /** `getSent(loan, monthNum, type)`. */
  function GetSent(loan: Loan, monthNum: int, stage: string): JsVal {
    Get(loan.reminderSent, Key(monthNum, stage))
  }

  /** `setSent(loan, monthNum, type, value)`: a copy of the loan with one more entry in `reminderSent`. */
  function SetSent(loan: Loan, monthNum: int, stage: string, value: JsVal): (r: Loan)
    ensures r.(reminderSent := loan.reminderSent) == loan
    ensures Key(monthNum, stage) in r.reminderSent && r.reminderSent[Key(monthNum, stage)] == value
    ensures forall k :: k != Key(monthNum, stage) ==> Get(r.reminderSent, k) == Get(loan.reminderSent, k)
    ensures r.reminderSent.Keys == loan.reminderSent.Keys + {Key(monthNum, stage)}
  {
    loan.(reminderSent := loan.reminderSent[Key(monthNum, stage) := value])
  }

  /** Reading back what was just set gives it; every other (month, stage) reads as before. */
  lemma GetSetSent(loan: Loan, n: nat, t: string, v: JsVal, n': nat, t': string)
    ensures GetSent(SetSent(loan, n, t, v), n, t) == v
    ensures (n', t') != (n, t) ==> GetSent(SetSent(loan, n, t, v), n', t') == GetSent(loan, n', t')
  {
    if (n', t') != (n, t) && Key(n', t') == Key(n, t) {
      KeyInjective(n', t', n, t);
    }
  }

  // ---------------------------------------------------------------------
  // Installment arithmetic

  /** `Math.floor((loan.amount || 0) / dueMonths)`. */
  function Installment(loan: Loan): int
    requires loan.dueMonths > 0
  {
    FloorDiv(loan.amount, loan.dueMonths)
  }

  /** `paidInstallments`: whole installments covered by what was repaid; 0 when the installment is not positive. */
  function PaidInstallments(loan: Loan, balance: int): int
    requires loan.dueMonths > 0
  {
    var installment := Installment(loan);
    if installment > 0 then FloorDiv(loan.amount - balance, installment) else 0
  }

  /**
   * The paid count is the number of whole installments in what was repaid
   * (`amount - balance`), and 0 when the installment is not positive.
   */
  lemma PaidBounds(loan: Loan, balance: int)
    requires loan.dueMonths > 0
    ensures var i, paid := Installment(loan), PaidInstallments(loan, balance);
      (i > 0 ==> i * paid <= loan.amount - balance < i * (paid + 1)) && (i <= 0 ==> paid == 0)
  {
    if Installment(loan) > 0 {
      FloorDivBounds(loan.amount - balance, Installment(loan));
    }
  }

  /** Paying the balance down never lowers the count of paid installments. */
  lemma PaidMonotone(loan: Loan, lower: int, higher: int)
    requires loan.dueMonths > 0 && lower <= higher
    ensures PaidInstallments(loan, higher) <= PaidInstallments(loan, lower)
  {
    var i := Installment(loan);
    PaidBounds(loan, lower);
    PaidBounds(loan, higher);
    if i > 0 {
      var p, q := PaidInstallments(loan, higher), PaidInstallments(loan, lower);
      if p > q {
        MulMonotone(i, q + 1, p);
      }
    }
  }

  lemma MulMonotone(i: int, a: int, b: int)
    requires i > 0 && a <= b
    ensures i * a <= i * b
  {
  }

  /** With a positive installment, a balance paid off covers every month of the loan. */
  lemma RepaidCoversAllMonths(loan: Loan, balance: int)
    requires loan.dueMonths > 0 && Installment(loan) > 0 && balance <= 0
    ensures PaidInstallments(loan, balance) >= loan.dueMonths
  {
    var i, paid := Installment(loan), PaidInstallments(loan, balance);
    PaidBounds(loan, balance);
    FloorDivBounds(loan.amount, loan.dueMonths);
    assert i * loan.dueMonths <= loan.amount;
    if paid + 1 <= loan.dueMonths {
      MulMonotone(i, paid + 1, loan.dueMonths);
    }
  }

  // ---------------------------------------------------------------------
  // The stage machine of one installment

  /** `4 * 60 * 60 * 1000` milliseconds. */
  const FOUR_HOURS: int := 4 * 60 * 60 * 1000

  /** `${diff}d`, the stage name of an advance reminder. */
  function DayKey(diff: int): string {
    IntToStr(diff) + "d"
  }

  /**
   * `firstSentAt ? new Date(firstSentAt).getTime() : 0`. The job stores the
   * ISO text of the time; the model stores the millisecond count that text
   * denotes and reads it back unchanged. `true` is 1 ms; any other value,
   * text included, is an invalid date, `None`, against which no comparison
   * holds.
   */
  function FirstSentTime(v: JsVal): Option<int> {
    if !Truthy(v) then Some(0)
    else if v.Num? then Some(v.n)
    else if v.Bool? then Some(1)
    else None
  }

  datatype Stage = Advance(days: int) | DueFirst | DueSecond

  /**
   * Which reminder, if any, an installment due `diff` days from today gets:
   * an advance reminder when `diff` is a configured day whose key is unset;
   * otherwise, on the due day, the first due reminder while the counter is
   * unset, and the second once the counter is exactly 1 and four hours have
   * passed since the first.
   */
  function StageFor(loan: Loan, monthNum: int, diff: int, days: seq<JsVal>, now: int): Option<Stage> {
    if Num(diff) in days && !Truthy(GetSent(loan, monthNum, DayKey(diff))) then Some(Advance(diff))
    else if diff == 0 then
      var count := GetSent(loan, monthNum, "due");
      var first := FirstSentTime(GetSent(loan, monthNum, "dueFirstAt"));
      if !Truthy(count) then Some(DueFirst)
      else if count == Num(1) && first.Some? && now - first.value >= FOUR_HOURS then Some(DueSecond)
      else None
    else None
  }

  /** The loan the PATCH for a stage carries: the given loan with that stage recorded. */
  function Written(loan: Loan, monthNum: int, st: Stage, now: int): (r: Loan)
    ensures r.(reminderSent := loan.reminderSent) == loan
  {
    match st
    case Advance(d) => SetSent(loan, monthNum, DayKey(d), Bool(true))
    case DueFirst => SetSent(SetSent(loan, monthNum, "due", Num(1)), monthNum, "dueFirstAt", Num(now))
    case DueSecond => SetSent(loan, monthNum, "due", Num(2))
  }

  /** The `reminderSent` keys a stage writes. */
  function StageKeys(monthNum: int, st: Stage): set<string> {
    match st
    case Advance(d) => {Key(monthNum, DayKey(d))}
    case DueFirst => {Key(monthNum, "due"), Key(monthNum, "dueFirstAt")}
    case DueSecond => {Key(monthNum, "due")}
  }

  /**
   * A write changes nothing but `reminderSent`, and there only the stage's
   * own keys: every other entry reads as in the loan it was built from.
   */
  lemma WrittenTouchesOnlyStageKeys(loan: Loan, monthNum: int, st: Stage, now: int)
    ensures Written(loan, monthNum, st, now).(reminderSent := loan.reminderSent) == loan
    ensures Written(loan, monthNum, st, now).reminderSent.Keys == loan.reminderSent.Keys + StageKeys(monthNum, st)
    ensures forall k :: k !in StageKeys(monthNum, st) ==>
      Get(Written(loan, monthNum, st, now).reminderSent, k) == Get(loan.reminderSent, k)
  {
  }

  /** A stage's keys belong to its own month. */
  lemma StageKeysOfMonth(m: nat, st: Stage, j: nat, t: string)
    requires Key(j, t) in StageKeys(m, st)
    ensures j == m
  {
    match st
    case Advance(d) => KeyInjective(j, t, m, DayKey(d));
    case DueFirst =>
      if Key(j, t) == Key(m, "due") {
        KeyInjective(j, t, m, "due");
      } else {
        KeyInjective(j, t, m, "dueFirstAt");
      }
    case DueSecond => KeyInjective(j, t, m, "due");
  }

  /** The month's entries after a write, read through `getSent`. */
  lemma WrittenReads(loan: Loan, m: nat, st: Stage, now: int)
    ensures st.Advance? ==> GetSent(Written(loan, m, st, now), m, DayKey(st.days)) == Bool(true)
    ensures st.Advance? ==> GetSent(Written(loan, m, st, now), m, "due") == GetSent(loan, m, "due")
    ensures st.DueFirst? ==> GetSent(Written(loan, m, st, now), m, "due") == Num(1)
    ensures st.DueSecond? ==> GetSent(Written(loan, m, st, now), m, "due") == Num(2)
  {
    match st
    case Advance(d) =>
      var dk := DayKey(d);
      assert dk[|dk| - 1] == 'd';
      GetSetSent(loan, m, dk, Bool(true), m, "due");
    case DueFirst =>
      var l1 := SetSent(loan, m, "due", Num(1));
      GetSetSent(l1, m, "dueFirstAt", Num(now), m, "due");
    case DueSecond =>
  }

  /**
   * The two due-day reminders are four hours apart: once the first has been
   * written at time `t`, a sweep on the due day (with no advance reminder
   * for day 0 configured) sends nothing before `t + FOUR_HOURS` and the
   * second reminder from then on.
   */
  lemma DueSpacing(loan: Loan, m: nat, t: int, days: seq<JsVal>, now: int)
    requires Num(0) !in days
    ensures var w := Written(loan, m, DueFirst, t);
      && (now < t + FOUR_HOURS ==> StageFor(w, m, 0, days, now).None?)
      && (now >= t + FOUR_HOURS ==> StageFor(w, m, 0, days, now) == Some(DueSecond))
  {
    WrittenReads(loan, m, DueFirst, t);
    GetSetSent(SetSent(loan, m, "due", Num(1)), m, "dueFirstAt", Num(t), m, "dueFirstAt");
  }

  /**
   * Once a stage is written back, the next sweep, at whatever time, does not
   * send that stage again: an advance key is set, and the due counter has
   * moved past the value that triggered the send.
   */
  lemma StageNotRepeated(loan: Loan, m: nat, diff: int, days: seq<JsVal>, now: int, days': seq<JsVal>, now': int)
    requires StageFor(loan, m, diff, days, now).Some?
    ensures var st := StageFor(loan, m, diff, days, now).value;
      StageFor(Written(loan, m, st, now), m, diff, days', now') != Some(st)
  {
    WrittenReads(loan, m, StageFor(loan, m, diff, days, now).value, now);
  }

  /** A sweep as one installment sees it: how many days remain to its due date, the configured days, the clock. */
  datatype Tick = Tick(diff: int, days: seq<JsVal>, now: int)

  /** The stages successive sweeps send for one installment when each sweep sees the previous one's write. */
  function StageRun(loan: Loan, m: nat, ticks: seq<Tick>): seq<Stage>
    decreases |ticks|
  {
    if ticks == [] then []
    else
      var t := ticks[0];
      match StageFor(loan, m, t.diff, t.days, t.now)
      case None => StageRun(loan, m, ticks[1..])
      case Some(st) => [st] + StageRun(Written(loan, m, st, t.now), m, ticks[1..])
  }

  /** How many of the stages are due-day reminders. */
  function DueSends(stages: seq<Stage>): nat {
    if stages == [] then 0 else (if stages[0].Advance? then 0 else 1) + DueSends(stages[1..])
  }

  /** Where the due counter stands: 0 unset, 1 after the first due reminder, 2 after anything else. */
  function DueLevel(loan: Loan, m: int): nat {
    var count := GetSent(loan, m, "due");
    if !Truthy(count) then 0 else if count == Num(1) then 1 else 2
  }

  lemma {:induction false} DueSendsBelowLevel(loan: Loan, m: nat, ticks: seq<Tick>)
    ensures DueLevel(loan, m) + DueSends(StageRun(loan, m, ticks)) <= 2
    decreases |ticks|
  {
    if ticks != [] {
      var t := ticks[0];
      match StageFor(loan, m, t.diff, t.days, t.now)
      case None =>
        DueSendsBelowLevel(loan, m, ticks[1..]);
      case Some(st) =>
        var next := Written(loan, m, st, t.now);
        WrittenReads(loan, m, st, t.now);
        DueSendsBelowLevel(next, m, ticks[1..]);
        assert StageRun(loan, m, ticks) == [st] + StageRun(next, m, ticks[1..]);
        assert ([st] + StageRun(next, m, ticks[1..]))[1..] == StageRun(next, m, ticks[1..]);
    }
  }

  /** However many sweeps run, one installment gets at most two due-day reminders. */
  lemma AtMostTwoDueSends(loan: Loan, m: nat, ticks: seq<Tick>)
    ensures DueSends(StageRun(loan, m, ticks)) <= 2
  {
    DueSendsBelowLevel(loan, m, ticks);
  }

  // ---------------------------------------------------------------------
  // Messages and effects

  /** One line of the overdue digest. */
  datatype OverdueItem = OverdueItem(member: Member, loan: Loan, monthNum: int, dueDate: string, installment: string)

  /** The job's messages; their Persian wording is not modelled beyond the values they show. */
  datatype Message =
    | AdvanceReminder(monthNum: int, days: int, installment: string, dueDate: string)
    | DueReminder(monthNum: int, installment: string)
    | OverdueList(date: string, items: seq<OverdueItem>)
    | OverdueNotice

  datatype Effect =
    | Send(chatId: string, msg: Message)
    /** `apiPatch('/api/loans/' + loan.id, body)`. */
    | PatchLoan(loanId: string, body: Loan)

  /** `s.replace(/-/g, '/')`. */
  function DashesToSlashes(s: string): (r: string)
    ensures |r| == |s| && '-' !in r
  {
    seq(|s|, i requires 0 <= i < |s| => if s[i] == '-' then '/' else s[i])
  }

  /** `dueDateDisplay`: the normalised date with slashes and Persian digits. */
  function DueDisplay(date: string): string {
    ToPersianDigits(DashesToSlashes(NormalizeShamsi(date)))
  }

  function Notice(st: Stage, monthNum: int, installment: string, dueDate: string): Message {
    match st
    case Advance(d) => AdvanceReminder(monthNum, d, installment, dueDate)
    case _ => DueReminder(monthNum, installment)
  }

  // ---------------------------------------------------------------------
  // The sweep's inputs

  /** The settings the sweep reads once, at its start. */
  datatype Sweep = Sweep(today: string, now: int, days: seq<JsVal>, toMember: bool)

  /** `reminderDaysBefore` when it is a non-empty array, else `[7, 3, 1]`. */
  function ReminderDays(ts: JsObject): (r: seq<JsVal>)
    ensures |r| > 0
  {
    var v := Get(ts, "reminderDaysBefore");
    if v.Arr? && |v.items| > 0 then v.items else [Num(7), Num(3), Num(1)]
  }

  function SweepOf(ts: JsObject, today: string, now: int): Sweep {
    Sweep(today, now, ReminderDays(ts), NotFalse(Get(ts, "sendReminderToMember")))
  }

  /** The response of `apiGet`: a failed request or unparsable body, a JSON value that is not a list, or a list. */
  datatype Fetched<T> = FetchError | NotAList | Rows(rows: seq<T>) {
    function OrEmpty(): seq<T> {
      if Rows? then rows else []
    }
  }

  /** `loans.filter((l) => l.status === 'active')`. */
  function ActiveLoans(loans: seq<Loan>): (r: seq<Loan>)
    ensures |r| <= |loans|
    ensures forall i :: 0 <= i < |r| ==> r[i].status == Str("active") && r[i] in loans
    ensures forall i :: 0 <= i < |loans| && loans[i].status == Str("active") ==> loans[i] in r
  {
    if loans == [] then []
    else if loans[0].status == Str("active") then [loans[0]] + ActiveLoans(loans[1..])
    else ActiveLoans(loans[1..])
  }

  /** `memberMap` after `members.forEach((m) => { memberMap[m.id] = m; })`. */
  function MemberMap(members: seq<Member>): map<string, Member> {
    if members == [] then map[]
    else
      var last := members[|members| - 1];
      MemberMap(members[..|members| - 1])[ToStr(last.id) := last]
  }

  /** The position of the last member whose id reads as `key`, or -1. */
  function LastWithId(members: seq<Member>, key: string): (r: int)
    ensures -1 <= r < |members|
    ensures r >= 0 ==> ToStr(members[r].id) == key && forall j :: r < j < |members| ==> ToStr(members[j].id) != key
    ensures r == -1 ==> forall j :: 0 <= j < |members| ==> ToStr(members[j].id) != key
  {
    if members == [] then -1
    else if ToStr(members[|members| - 1].id) == key then |members| - 1
    else LastWithId(members[..|members| - 1], key)
  }

  /** A key is in the map exactly when some member's id reads as it, and it holds the last such member. */
  lemma {:induction false} MemberMapLast(members: seq<Member>, key: string)
    ensures key in MemberMap(members) <==> LastWithId(members, key) >= 0
    ensures key in MemberMap(members) ==> MemberMap(members)[key] == members[LastWithId(members, key)]
  {
    if members != [] {
      var init := members[..|members| - 1];
      MemberMapLast(init, key);
      if ToStr(members[|members| - 1].id) != key && LastWithId(init, key) >= 0 {
        assert members[LastWithId(init, key)] == init[LastWithId(init, key)];
      }
    }
  }

  method BuildMemberMap(members: seq<Member>) returns (memberMap: map<string, Member>)
    ensures memberMap == MemberMap(members)
  {
    memberMap := map[];
    for i := 0 to |members|
      invariant memberMap == MemberMap(members[..i])
    {
      assert members[..i + 1][..i] == members[..i];
      memberMap := memberMap[ToStr(members[i].id) := members[i]];
    }
    assert members[..|members|] == members;
  }

  // ---------------------------------------------------------------------
  // Member reminders

  /** `addMonthsShamsi(loan.date, monthNum)`; a date that is not text normalises to ''. */
  function DueDate(loan: Loan, monthNum: int): string {
    AddedMonths(TextOr(loan.date), monthNum)
  }

  /** The stage one installment month gets in this sweep, on the given state of its loan. */
  function Decision(loan: Loan, member: Member, sw: Sweep, monthNum: int): Option<Stage>
    requires loan.dueMonths > 0
  {
    if monthNum <= PaidInstallments(loan, member.loanBalance) then None
    else
      var due := DueDate(loan, monthNum);
      var diff := DiffDays(sw.today, due);
      if due == "" || diff.None? || !sw.toMember then None
      else StageFor(loan, monthNum, diff.value, sw.days, sw.now)
  }

  /** What one installment month contributes: the reminder, then the PATCH recording it. */
  function MonthEffects(loan: Loan, member: Member, sw: Sweep, monthNum: int): seq<Effect>
    requires loan.dueMonths > 0
  {
    match Decision(loan, member, sw, monthNum)
    case None => []
    case Some(st) =>
      var due := DueDate(loan, monthNum);
      [ Send(ToStr(member.telegramChatId), Notice(st, monthNum, FormatNumTelegram(Some(Installment(loan))), DueDisplay(due))),
        PatchLoan(ToStr(loan.id), Written(loan, monthNum, st, sw.now)) ]
  }

  /** Months 1 to `upTo` of one loan, each decided on the loan as read at the start of the sweep. */
  function MonthsEffects(loan: Loan, member: Member, sw: Sweep, upTo: int): seq<Effect>
    requires loan.dueMonths > 0
    decreases upTo
  {
    if upTo < 1 then [] else MonthsEffects(loan, member, sw, upTo - 1) + MonthEffects(loan, member, sw, upTo)
  }

  /** Whether a loan gets member reminders: a known member with a chat id, and a positive term. */
  predicate Reminded(loan: Loan, memberMap: map<string, Member>) {
    ToStr(loan.memberId) in memberMap && Truthy(memberMap[ToStr(loan.memberId)].telegramChatId) && loan.dueMonths > 0
  }

  function LoanEffects(loan: Loan, memberMap: map<string, Member>, sw: Sweep): seq<Effect> {
    if Reminded(loan, memberMap) then MonthsEffects(loan, memberMap[ToStr(loan.memberId)], sw, loan.dueMonths)
    else []
  }

  /** The member-reminder phase over the active loans, in order. */
  function MemberEffects(loans: seq<Loan>, memberMap: map<string, Member>, sw: Sweep): seq<Effect> {
    if loans == [] then []
    else MemberEffects(loans[..|loans| - 1], memberMap, sw) + LoanEffects(loans[|loans| - 1], memberMap, sw)
  }

  /** The month loop of one loan. */
  method RemindLoan(loan: Loan, member: Member, sw: Sweep) returns (effects: seq<Effect>)
    requires loan.dueMonths > 0
    ensures effects == MonthsEffects(loan, member, sw, loan.dueMonths)
  {
    var paid := PaidOf(loan, member);
    var installmentText := FormatNumTelegram(Some(FloorDiv(loan.amount, loan.dueMonths)));
    effects := [];
    for monthNum := 1 to loan.dueMonths + 1
      invariant effects == MonthsEffects(loan, member, sw, monthNum - 1)
    {
      var more := RemindMonth(loan, member, sw, monthNum, paid, installmentText);
      effects := effects + more;
    }
  }

  /** One pass of the month loop: the skips, the due date, the day difference and the stage. */
  method RemindMonth(loan: Loan, member: Member, sw: Sweep, monthNum: int, paid: int, installmentText: string)
    returns (more: seq<Effect>)
    requires loan.dueMonths > 0 && paid == PaidInstallments(loan, member.loanBalance)
    requires installmentText == FormatNumTelegram(Some(Installment(loan)))
    ensures more == MonthEffects(loan, member, sw, monthNum)
  {
    more := [];
    if monthNum <= paid {
      return;
    }
    var due := AddMonthsShamsi(TextOr(loan.date), monthNum);
    if due == "" {
      return;
    }
    var diff := DiffDaysShamsi(sw.today, due);
    if diff.None? {
      return;
    }
    if sw.toMember {
      var stage := StageFor(loan, monthNum, diff.value, sw.days, sw.now);
      if stage.Some? {
        var chatId := ToStr(member.telegramChatId);
        more := [ Send(chatId, Notice(stage.value, monthNum, installmentText, DueDisplay(due))),
                  PatchLoan(ToStr(loan.id), Written(loan, monthNum, stage.value, sw.now)) ];
      }
    }
  }

  /** The loop over the active loans. */
  method RemindMembers(loanList: seq<Loan>, memberMap: map<string, Member>, sw: Sweep) returns (effects: seq<Effect>)
    ensures effects == MemberEffects(loanList, memberMap, sw)
  {
    effects := [];
    for i := 0 to |loanList|
      invariant effects == MemberEffects(loanList[..i], memberMap, sw)
    {
      var loan := loanList[i];
      assert loanList[..i + 1][..i] == loanList[..i];
      var key := ToStr(loan.memberId);
      if key !in memberMap || !Truthy(memberMap[key].telegramChatId) {
        continue;
      }
      var dueMonths := loan.dueMonths;
      if dueMonths <= 0 {
        continue;
      }
      var more := RemindLoan(loan, memberMap[key], sw);
      effects := effects + more;
    }
    assert loanList[..|loanList|] == loanList;
  }

  /** A loan whose balance is paid off, with a positive installment, gets no member reminder. */
  lemma RepaidLoanSilent(loan: Loan, member: Member, sw: Sweep, upTo: int)
    requires loan.dueMonths > 0 && Installment(loan) > 0 && member.loanBalance <= 0 && upTo <= loan.dueMonths
    ensures MonthsEffects(loan, member, sw, upTo) == []
    decreases upTo
  {
    RepaidCoversAllMonths(loan, member.loanBalance);
    if upTo >= 1 {
      RepaidLoanSilent(loan, member, sw, upTo - 1);
    }
  }

  /**
   * Every PATCH the member phase issues targets a loan of the list that gets
   * reminders, and carries that loan exactly as read plus one stage of one of
   * its months.
   */
  ghost predicate PatchFrom(e: Effect, loan: Loan, now: int) {
    e.PatchLoan? ==> e.loanId == ToStr(loan.id) && exists m: nat, st: Stage :: e.body == Written(loan, m, st, now)
  }

  lemma {:induction false} MonthsPatches(loan: Loan, member: Member, sw: Sweep, upTo: int)
    requires loan.dueMonths > 0
    ensures forall e :: e in MonthsEffects(loan, member, sw, upTo) ==> PatchFrom(e, loan, sw.now)
    decreases upTo
  {
    if upTo >= 1 {
      MonthsPatches(loan, member, sw, upTo - 1);
      match Decision(loan, member, sw, upTo)
      case None =>
      case Some(st) =>
        var body := Written(loan, upTo, st, sw.now);
        assert PatchFrom(PatchLoan(ToStr(loan.id), body), loan, sw.now);
    }
  }

  lemma {:induction false} PatchesFromSnapshot(loans: seq<Loan>, memberMap: map<string, Member>, sw: Sweep)
    ensures forall e :: e in MemberEffects(loans, memberMap, sw) ==>
      exists i :: 0 <= i < |loans| && Reminded(loans[i], memberMap) && PatchFrom(e, loans[i], sw.now)
  {
    if loans != [] {
      var init, last := loans[..|loans| - 1], loans[|loans| - 1];
      PatchesFromSnapshot(init, memberMap, sw);
      if Reminded(last, memberMap) {
        MonthsPatches(last, memberMap[ToStr(last.memberId)], sw, last.dueMonths);
      }
      forall e | e in MemberEffects(loans, memberMap, sw)
        ensures exists i :: 0 <= i < |loans| && Reminded(loans[i], memberMap) && PatchFrom(e, loans[i], sw.now)
      {
        if e in MemberEffects(init, memberMap, sw) {
          var i :| 0 <= i < |init| && Reminded(init[i], memberMap) && PatchFrom(e, init[i], sw.now);
          assert loans[i] == init[i];
        } else {
          assert Reminded(loans[|loans| - 1], memberMap);
        }
      }
    }
  }

  // ---------------------------------------------------------------------
  // Writes built from the snapshot, and the threaded alternative

  /**
   * When one sweep decides stages for two months of the same loan, the second
   * PATCH, built from the snapshot, overwrites the first: the stored loan then
   * reads for the first month as it did before the sweep, so the next sweep
   * decides the first month's stage again.
   */
  lemma StageRepeatsAfterLostUpdate(loan: Loan, m1: nat, m2: nat, st2: Stage, diff: int, days: seq<JsVal>, now: int, now': int)
    requires m1 != m2 && now <= now'
    requires StageFor(loan, m1, diff, days, now).Some?
    ensures StageFor(Written(loan, m2, st2, now), m1, diff, days, now') == StageFor(loan, m1, diff, days, now)
  {
    WrittenKeepsOtherMonth(loan, m2, st2, now, m1);
    StageForLocal(Written(loan, m2, st2, now), loan, m1, diff, days, now');
  }

  /** Writing month `m`'s stage leaves every entry of any other month `k` as it was. */
  lemma WrittenKeepsOtherMonth(loan: Loan, m: nat, st: Stage, now: int, k: nat)
    requires k != m
    ensures forall t :: GetSent(Written(loan, m, st, now), k, t) == GetSent(loan, k, t)
  {
    forall t: string ensures GetSent(Written(loan, m, st, now), k, t) == GetSent(loan, k, t) {
      if Key(k, t) in StageKeys(m, st) {
        StageKeysOfMonth(m, st, k, t);
      }
    }
  }

  /**
   * On the day a loan's first installment falls due, with nothing repaid and
   * nothing recorded yet, a sweep whose reminder days include the gap to the
   * second due date (and not 0) decides a stage for both months: the due
   * notice for month 1 and the advance reminder for month 2, so it issues two
   * PATCHes for the same loan.
   */
  lemma TwoDecisionsOneSweep(loan: Loan, member: Member, sw: Sweep, gap: int)
    requires loan.dueMonths > 0 && PaidInstallments(loan, member.loanBalance) == 0
    requires loan.reminderSent == map[] && sw.toMember
    requires DueDate(loan, 1) != "" && DiffDays(sw.today, DueDate(loan, 1)) == Some(0)
    requires DueDate(loan, 2) != "" && DiffDays(sw.today, DueDate(loan, 2)) == Some(gap)
    requires Num(0) !in sw.days && Num(gap) in sw.days
    ensures Decision(loan, member, sw, 1) == Some(DueFirst)
    ensures Decision(loan, member, sw, 2) == Some(Advance(gap))
  {
    DecisionOnDay(loan, member, sw, 1, 0);
    DecisionOnDay(loan, member, sw, 2, gap);
    assert GetSent(loan, 1, DayKey(0)) == Undefined;
    assert GetSent(loan, 1, "due") == Undefined;
    assert GetSent(loan, 2, DayKey(gap)) == Undefined;
  }

  /** An unpaid month with a readable due date `diff` days from today gets the stage `StageFor` gives. */
  lemma DecisionOnDay(loan: Loan, member: Member, sw: Sweep, monthNum: int, diff: int)
    requires loan.dueMonths > 0 && monthNum > PaidInstallments(loan, member.loanBalance)
    requires DueDate(loan, monthNum) != "" && DiffDays(sw.today, DueDate(loan, monthNum)) == Some(diff)
    requires sw.toMember
    ensures Decision(loan, member, sw, monthNum) == StageFor(loan, monthNum, diff, sw.days, sw.now)
  {
  }

  /**
   * The instance: for a loan dated 1402-01-15 the first two installments fall
   * due on 1402-02-15 and 1402-03-15, 31 days apart, so a sweep on 1402-02-15
   * with reminder days `[31]` meets the conditions above.
   */
  lemma TwoDecisionsExample(loan: Loan)
    requires loan.date == Str(FormatDate(Date(1402, 1, 15)))
    ensures DueDate(loan, 1) == FormatDate(Date(1402, 2, 15))
    ensures DueDate(loan, 2) == FormatDate(Date(1402, 3, 15))
    ensures DiffDays(FormatDate(Date(1402, 2, 15)), DueDate(loan, 1)) == Some(0)
    ensures DiffDays(FormatDate(Date(1402, 2, 15)), DueDate(loan, 2)) == Some(31)
  {
    ExampleDueDates(loan);
    ExampleGaps();
  }

  lemma ExampleDueDates(loan: Loan)
    requires loan.date == Str(FormatDate(Date(1402, 1, 15)))
    ensures DueDate(loan, 1) == FormatDate(Date(1402, 2, 15))
    ensures DueDate(loan, 2) == FormatDate(Date(1402, 3, 15))
  {
    AddedMonthsOfFormatted(Date(1402, 1, 15), 1);
    AddedMonthsOfFormatted(Date(1402, 1, 15), 2);
    assert MonthsLater(Date(1402, 1, 15), 1) == Date(1402, 2, 15);
    assert MonthsLater(Date(1402, 1, 15), 2) == Date(1402, 3, 15);
  }

  lemma ExampleGaps()
    ensures DiffDays(FormatDate(Date(1402, 2, 15)), FormatDate(Date(1402, 2, 15))) == Some(0)
    ensures DiffDays(FormatDate(Date(1402, 2, 15)), FormatDate(Date(1402, 3, 15))) == Some(31)
  {
    DiffDaysOfFormatted(Date(1402, 2, 15), Date(1402, 2, 15));
    DiffDaysOfFormatted(Date(1402, 2, 15), Date(1402, 3, 15));
    DaysBeforeMonthClosed(1402, 2);
    DaysBeforeMonthClosed(1402, 3);
  }

  /**
   * Months 1 to `upTo` of one loan when each month decides on the loan as
   * written by the months before it in the same sweep, so that every PATCH
   * carries all of the sweep's records for the loan.
   */
  function Threaded(loan: Loan, member: Member, sw: Sweep, upTo: int): Loan
    requires loan.dueMonths > 0
    ensures Threaded(loan, member, sw, upTo).(reminderSent := loan.reminderSent) == loan
    decreases upTo
  {
    if upTo < 1 then loan
    else
      var prev := Threaded(loan, member, sw, upTo - 1);
      match Decision(prev, member, sw, upTo)
      case None => prev
      case Some(st) => Written(prev, upTo, st, sw.now)
  }

  /** A stage depends only on its own month's entries of `reminderSent`. */
  lemma StageForLocal(l1: Loan, l2: Loan, m: int, diff: int, days: seq<JsVal>, now: int)
    requires forall t :: GetSent(l1, m, t) == GetSent(l2, m, t)
    ensures StageFor(l1, m, diff, days, now) == StageFor(l2, m, diff, days, now)
  {
    assert GetSent(l1, m, DayKey(diff)) == GetSent(l2, m, DayKey(diff));
    assert GetSent(l1, m, "due") == GetSent(l2, m, "due");
    assert GetSent(l1, m, "dueFirstAt") == GetSent(l2, m, "dueFirstAt");
  }

  /** Later months of a threaded sweep leave month `k`'s entries as month `k` wrote them. */
  lemma {:induction false} ThreadedKeepsMonth(loan: Loan, member: Member, sw: Sweep, k: nat, upTo: int)
    requires loan.dueMonths > 0 && k <= upTo
    ensures forall t :: GetSent(Threaded(loan, member, sw, upTo), k, t) == GetSent(Threaded(loan, member, sw, k), k, t)
    decreases upTo
  {
    if upTo > k {
      ThreadedKeepsMonth(loan, member, sw, k, upTo - 1);
      ThreadedStepKeeps(loan, member, sw, k, upTo);
    }
  }

  /** One threaded step, for month `upTo`, keeps the entries of an earlier month `k`. */
  lemma ThreadedStepKeeps(loan: Loan, member: Member, sw: Sweep, k: nat, upTo: int)
    requires loan.dueMonths > 0 && k < upTo
    ensures forall t :: GetSent(Threaded(loan, member, sw, upTo), k, t) == GetSent(Threaded(loan, member, sw, upTo - 1), k, t)
  {
    var prev := Threaded(loan, member, sw, upTo - 1);
    var d := Decision(prev, member, sw, upTo);
    assert Threaded(loan, member, sw, upTo) == if d.None? then prev else Written(prev, upTo, d.value, sw.now);
    if d.Some? {
      WrittenKeepsOtherMonth(prev, upTo, d.value, sw.now, k);
    }
  }

  /**
   * In the threaded sweep no record is lost: for every month that was sent a
   * stage, the loan as finally written does not let the next sweep send that
   * stage again.
   */
  lemma ThreadedNoRepeat(loan: Loan, member: Member, sw: Sweep, k: nat, upTo: int, days': seq<JsVal>, now': int)
    requires loan.dueMonths > 0 && 1 <= k <= upTo
    requires Decision(Threaded(loan, member, sw, k - 1), member, sw, k).Some?
    ensures var st := Decision(Threaded(loan, member, sw, k - 1), member, sw, k).value;
      var diff := DiffDays(sw.today, DueDate(loan, k)).value;
      StageFor(Threaded(loan, member, sw, upTo), k, diff, days', now') != Some(st)
  {
    var prev := Threaded(loan, member, sw, k - 1);
    var st := Decision(prev, member, sw, k).value;
    assert prev.(reminderSent := loan.reminderSent) == loan;
    var diff := DiffDays(sw.today, DueDate(loan, k)).value;
    assert DueDate(prev, k) == DueDate(loan, k);
    StageNotRepeated(prev, k, diff, sw.days, sw.now, days', now');
    ThreadedKeepsMonth(loan, member, sw, k, upTo);
    StageForLocal(Threaded(loan, member, sw, upTo), Threaded(loan, member, sw, k), k, diff, days', now');
  }

  // ---------------------------------------------------------------------
  // The overdue digest

  /** Month `monthNum` of the loan fell due before today. */
  predicate OverdueAt(loan: Loan, monthNum: int, today: string) {
    var due := DueDate(loan, monthNum);
    due != "" && DiffDays(today, due).Some? && DiffDays(today, due).value < 0
  }

  /** Whether a month of the term is unpaid and fell due before today. */
  function UnpaidOverdue(loan: Loan, paid: int, today: string): int -> bool {
    k => k > paid && OverdueAt(loan, k, today)
  }

  /** The first unpaid month from `from` to the end of the term that is overdue. */
  function FirstOverdue(loan: Loan, paid: int, today: string, from: int): Option<int> {
    FirstIn(UnpaidOverdue(loan, paid, today), from, loan.dueMonths)
  }

  /**
   * The month found is unpaid, overdue and within the term, and no unpaid
   * month before it (from `from` on) is overdue; when none is found, no
   * unpaid month of the term is overdue.
   */
  lemma FirstOverdueIsEarliest(loan: Loan, paid: int, today: string, from: int)
    ensures FirstOverdue(loan, paid, today, from).Some? ==>
      var m := FirstOverdue(loan, paid, today, from).value;
      from <= m <= loan.dueMonths && UnpaidOverdue(loan, paid, today)(m) &&
      forall k :: from <= k < m ==> !UnpaidOverdue(loan, paid, today)(k)
    ensures FirstOverdue(loan, paid, today, from).None? ==>
      forall k :: from <= k <= loan.dueMonths ==> !UnpaidOverdue(loan, paid, today)(k)
  {
    FirstInIsFirst(UnpaidOverdue(loan, paid, today), from, loan.dueMonths);
  }

  /** A loan's line in the digest: its earliest unpaid overdue month, if any. */
  function LoanOverdue(loan: Loan, member: Member, today: string): seq<OverdueItem>
    requires loan.dueMonths > 0
  {
    match FirstOverdue(loan, PaidInstallments(loan, member.loanBalance), today, 1)
    case None => []
    case Some(m) => [OverdueLine(loan, member, m, DueDate(loan, m))]
  }

  function OverdueLine(loan: Loan, member: Member, monthNum: int, due: string): OverdueItem
    requires loan.dueMonths > 0
  {
    OverdueItem(member, loan, monthNum, DueDisplay(due), FormatNumTelegram(Some(Installment(loan))))
  }

  /** The digest lines over the active loans of known members (a chat id is not required). */
  function OverdueItems(loans: seq<Loan>, memberMap: map<string, Member>, today: string): seq<OverdueItem> {
    if loans == [] then []
    else
      var loan := loans[|loans| - 1];
      var rest := OverdueItems(loans[..|loans| - 1], memberMap, today);
      if ToStr(loan.memberId) in memberMap && loan.dueMonths > 0 then rest + LoanOverdue(loan, memberMap[ToStr(loan.memberId)], today)
      else rest
  }

  /**
   * Line `i` comes from loan `ks[i]`, and the `ks` strictly increase: each
   * loan gives at most one line, and lines follow the order of the loans.
   */
  predicate FromLoans(items: seq<OverdueItem>, loans: seq<Loan>, ks: seq<int>) {
    && |ks| == |items|
    && (forall i :: 0 <= i < |ks| ==> 0 <= ks[i] < |loans| && items[i].loan == loans[ks[i]])
    && (forall i, j :: 0 <= i < j < |ks| ==> ks[i] < ks[j])
  }

  /** The last loan adds at most one line, at the end, and that line is about it. */
  lemma OverdueLast(loans: seq<Loan>, memberMap: map<string, Member>, today: string)
    requires loans != []
    ensures var items := OverdueItems(loans, memberMap, today);
      var rest := OverdueItems(loans[..|loans| - 1], memberMap, today);
      && |rest| <= |items| <= |rest| + 1 && items[..|rest|] == rest
      && (|items| > |rest| ==> items[|rest|].loan == loans[|loans| - 1])
  {
  }

  /** Lines from the earlier loans, plus at most one line about the last loan, still come one per loan. */
  lemma ExtendFromLoans(rest: seq<OverdueItem>, items: seq<OverdueItem>, loans: seq<Loan>, ks0: seq<int>)
    requires loans != [] && FromLoans(rest, loans[..|loans| - 1], ks0)
    requires |rest| <= |items| <= |rest| + 1 && items[..|rest|] == rest
    requires |items| > |rest| ==> items[|rest|].loan == loans[|loans| - 1]
    ensures FromLoans(items, loans, if |items| > |rest| then ks0 + [|loans| - 1] else ks0)
  {
    var ks := if |items| > |rest| then ks0 + [|loans| - 1] else ks0;
    forall i | 0 <= i < |rest|
      ensures items[i].loan == loans[ks[i]]
    {
      assert items[i] == items[..|rest|][i];
    }
  }

  /** The digest has at most one line per loan, in the order of the loans. */
  lemma {:induction false} OverdueItemsPerLoan(loans: seq<Loan>, memberMap: map<string, Member>, today: string)
    ensures exists ks :: FromLoans(OverdueItems(loans, memberMap, today), loans, ks)
    ensures |OverdueItems(loans, memberMap, today)| <= |loans|
  {
    if loans == [] {
      assert FromLoans(OverdueItems(loans, memberMap, today), loans, []);
    } else {
      var init := loans[..|loans| - 1];
      OverdueItemsPerLoan(init, memberMap, today);
      OverdueLast(loans, memberMap, today);
      var rest := OverdueItems(init, memberMap, today);
      var ks0 :| FromLoans(rest, init, ks0);
      ExtendFromLoans(rest, OverdueItems(loans, memberMap, today), loans, ks0);
    }
  }

  /** The inner month loop of the digest, which stops at the first overdue month. */
  method LoanOverdueScan(loan: Loan, member: Member, today: string) returns (found: seq<OverdueItem>)
    requires loan.dueMonths > 0
    ensures found == LoanOverdue(loan, member, today)
  {
    var paid := PaidOf(loan, member);
    found := [];
    var monthNum := 1;
    while monthNum <= loan.dueMonths
      invariant 1 <= monthNum <= loan.dueMonths + 1
      invariant FirstOverdue(loan, paid, today, monthNum) == FirstOverdue(loan, paid, today, 1)
      invariant found == []
      decreases loan.dueMonths - monthNum
    {
      if monthNum > paid {
        var due, overdue := CheckOverdue(loan, monthNum, today);
        if overdue {
          found := [OverdueLine(loan, member, monthNum, due)];
          break;
        }
      }
      monthNum := monthNum + 1;
    }
  }

  /** `monthlyInstallment`, `totalRepaid` and `paidInstallments` as the job computes them. */
  method PaidOf(loan: Loan, member: Member) returns (paid: int)
    requires loan.dueMonths > 0
    ensures paid == PaidInstallments(loan, member.loanBalance)
  {
    var installment := FloorDiv(loan.amount, loan.dueMonths);
    var totalRepaid := loan.amount - member.loanBalance;
    paid := if installment > 0 then FloorDiv(totalRepaid, installment) else 0;
  }

  /** The due date of one month and whether it lies before today. */
  method CheckOverdue(loan: Loan, monthNum: int, today: string) returns (due: string, overdue: bool)
    ensures due == DueDate(loan, monthNum) && overdue == OverdueAt(loan, monthNum, today)
  {
    overdue := false;
    due := AddMonthsShamsi(TextOr(loan.date), monthNum);
    if due != "" {
      var diff := DiffDaysShamsi(today, due);
      overdue := diff.Some? && diff.value < 0;
    }
  }

  method CollectOverdue(loanList: seq<Loan>, memberMap: map<string, Member>, today: string) returns (items: seq<OverdueItem>)
    ensures items == OverdueItems(loanList, memberMap, today)
  {
    items := [];
    for i := 0 to |loanList|
      invariant items == OverdueItems(loanList[..i], memberMap, today)
    {
      var loan := loanList[i];
      assert loanList[..i + 1][..i] == loanList[..i];
      var key := ToStr(loan.memberId);
      if key !in memberMap {
        continue;
      }
      if loan.dueMonths <= 0 {
        continue;
      }
      var found := LoanOverdueScan(loan, memberMap[key], today);
      items := items + found;
    }
    assert loanList[..|loanList|] == loanList;
  }

  /** `overdueListLastSentDate`, the day the digest last went out. */
  const LAST_SENT: string := "overdueListLastSentDate"

  predicate AnyDigestFlag(ts: JsObject) {
    IsTrue(Get(ts, "sendOverdueListToAdmin")) || IsTrue(Get(ts, "sendOverdueListToGroup"))
      || IsTrue(Get(ts, "sendOverdueListToMember"))
  }

  /** The daily gate: some digest flag is `true` and the digest has not gone out today. */
  predicate DigestOpen(ts: JsObject, today: string) {
    AnyDigestFlag(ts) && OrEmpty(Get(ts, LAST_SENT)) != Str(today)
  }

  /** What the job does: its effects, and whether it records today as the digest's day. */
  datatype Outcome = Outcome(effects: seq<Effect>, markSent: bool)

  function Broadcast(targets: seq<string>, msg: Message): (r: seq<Effect>)
    ensures |r| == |targets| && forall i :: 0 <= i < |r| ==> r[i] == Send(targets[i], msg)
  {
    if targets == [] then [] else [Send(targets[0], msg)] + Broadcast(targets[1..], msg)
  }

  /** The private notices, one per digest line whose member has a chat id. */
  function MemberNotices(items: seq<OverdueItem>): seq<Effect> {
    if items == [] then []
    else
      var rest := MemberNotices(items[1..]);
      var chat := items[0].member.telegramChatId;
      if Truthy(chat) then [Send(ToStr(chat), OverdueNotice)] + rest else rest
  }

  /**
   * The digest once the gate is open: nothing for an empty list; a
   * `notifyTarget` that is not text makes `.trim` throw and ends the job;
   * otherwise the list to the main administrator, then to every admin
   * target, then the private notices, and today is recorded.
   */
  function Digest(ts: JsObject, env: JsVal, today: string, items: seq<OverdueItem>): Outcome {
    if items == [] then Outcome([], false)
    else
      match TrimmedOr(Get(ts, "notifyTarget"))
      case None => Outcome([], false)
      case Some(notify) =>
        var list := OverdueList(today, items);
        var toAdmin := if IsTrue(Get(ts, "sendOverdueListToAdmin")) && notify != "" then [Send(notify, list)] else [];
        var toGroups := if IsTrue(Get(ts, "sendOverdueListToGroup")) then Broadcast(AdminTargets(ts, env), list) else [];
        var toMembers := if IsTrue(Get(ts, "sendOverdueListToMember")) then MemberNotices(items) else [];
        Outcome(toAdmin + toGroups + toMembers, true)
  }

  /**
   * One run of the job. Without a bot it does nothing; a failed fetch lands
   * in the job's catch-all, before any effect.
   */
  function Run(bot: bool, ts: JsObject, loans: Fetched<Loan>, members: Fetched<Member>, today: string, now: int, env: JsVal): Outcome {
    if !bot || loans.FetchError? || members.FetchError? then Outcome([], false)
    else
      var loanList := ActiveLoans(loans.OrEmpty());
      var memberMap := MemberMap(members.OrEmpty());
      var reminders := MemberEffects(loanList, memberMap, SweepOf(ts, today, now));
      var digest := if DigestOpen(ts, today) then Digest(ts, env, today, OverdueItems(loanList, memberMap, today)) else Outcome([], false);
      Outcome(reminders + digest.effects, digest.markSent)
  }

  /** `runLoanReminders`: the effects in order, and the settings write that closes the day's gate. */
  method RunLoanReminders(db: Db, bot: bool, loans: Fetched<Loan>, members: Fetched<Member>, today: string, now: int, env: JsVal)
    returns (effects: seq<Effect>)
    modifies db`telegramSettings
    ensures var out := Run(bot, old(db.Settings()), loans, members, today, now, env);
      effects == out.effects
      && db.telegramSettings == if out.markSent then Some(old(db.Settings())[LAST_SENT := Str(today)]) else old(db.telegramSettings)
  {
    effects := [];
    if !bot || loans.FetchError? || members.FetchError? {
      return;
    }
    var ts := db.Settings();
    var sw := SweepOf(ts, today, now);
    var loanList := ActiveLoans(loans.OrEmpty());
    var memberMap := BuildMemberMap(members.OrEmpty());
    effects := RemindMembers(loanList, memberMap, sw);
    if DigestOpen(ts, today) {
      var items := CollectOverdue(loanList, memberMap, today);
      var sent := SendDigest(db, ts, env, today, items);
      effects := effects + sent;
    }
  }

  /** The digest step of the job on the settings it read: the messages, then the write of today's date. */
  method SendDigest(db: Db, ts: JsObject, env: JsVal, today: string, items: seq<OverdueItem>) returns (sent: seq<Effect>)
    modifies db`telegramSettings
    ensures sent == Digest(ts, env, today, items).effects
    ensures db.telegramSettings == if Digest(ts, env, today, items).markSent then Some(ts[LAST_SENT := Str(today)]) else old(db.telegramSettings)
  {
    sent := [];
    if |items| > 0 {
      var notify := TrimmedOr(Get(ts, "notifyTarget"));
      if notify.None? {
        return;
      }
      sent := Digest(ts, env, today, items).effects;
      db.telegramSettings := Some(ts[LAST_SENT := Str(today)]);
    }
  }

  /** Recording today closes the gate for the rest of the day and reopens it on any other day with a flag set. */
  lemma DigestGate(ts: JsObject, today: string, day: string)
    ensures !DigestOpen(ts[LAST_SENT := Str(today)], today)
    ensures DigestOpen(ts[LAST_SENT := Str(today)], day) <==> AnyDigestFlag(ts) && day != today
  {
    assert Get(ts[LAST_SENT := Str(today)], "sendOverdueListToAdmin") == Get(ts, "sendOverdueListToAdmin");
    assert Get(ts[LAST_SENT := Str(today)], "sendOverdueListToGroup") == Get(ts, "sendOverdueListToGroup");
    assert Get(ts[LAST_SENT := Str(today)], "sendOverdueListToMember") == Get(ts, "sendOverdueListToMember");
  }

  /** The day is recorded only when a digest with at least one line went out through an open gate. */
  lemma MarkedOnlyWithItems(bot: bool, ts: JsObject, loans: Fetched<Loan>, members: Fetched<Member>, today: string, now: int, env: JsVal)
    requires Run(bot, ts, loans, members, today, now, env).markSent
    ensures bot && DigestOpen(ts, today)
    ensures |OverdueItems(ActiveLoans(loans.OrEmpty()), MemberMap(members.OrEmpty()), today)| > 0
  {
  }

  /** A second run on the same day, after the first recorded the digest, sends only member reminders. */
  lemma DigestOncePerDay(bot: bool, ts: JsObject, loans: Fetched<Loan>, members: Fetched<Member>, today: string, now: int, env: JsVal,
                         loans': Fetched<Loan>, members': Fetched<Member>, now': int)
    requires Run(bot, ts, loans, members, today, now, env).markSent
    requires !loans'.FetchError? && !members'.FetchError?
    ensures var ts' := ts[LAST_SENT := Str(today)];
      var again := Run(bot, ts', loans', members', today, now', env);
      !again.markSent
      && again.effects == MemberEffects(ActiveLoans(loans'.OrEmpty()), MemberMap(members'.OrEmpty()), SweepOf(ts', today, now'))
  {
    DigestGate(ts, today, today);
  }
}
