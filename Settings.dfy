/**
 * The administrator's Telegram settings: the form the panel reads
 * (`GET /admin/telegram-settings`) and the save that replaces
 * `db.telegramSettings` with a normalised object
 * (`POST /admin/telegram-settings`).
 */
module Settings {
  import opened Js
  import opened Strings
  import opened Lists
  import opened Targets
  import opened Store
  import Reminders

  /** The reminder days used when none are given: a week, three days and one day ahead. */
  const DEFAULT_DAYS: seq<int> := [7, 3, 1]

  const LAST_SENT: string := Reminders.LAST_SENT

  /** The stored form of a list of days: an array of numbers. */
  function Days(ds: seq<int>): (r: seq<JsVal>)
    ensures |r| == |ds|
  {
    if ds == [] then [] else [Num(ds[0])] + Days(ds[1..])
  }

  // ---------------------------------------------------------------------
  // Text fields

  /** `x != null ? String(x).trim() : ''`, for the destinations. */
  function TrimmedField(v: JsVal): (r: string)
    ensures IsNullish(v) ==> r == ""
    ensures v.Str? ==> r == Trim(v.s)
    ensures Trim(r) == r
  {
    if IsNullish(v) then "" else TrimIdempotent(ToStr(v)); Trim(ToStr(v))
  }

  /** `x != null ? String(x) : ''`, for the templates, which keep their spaces. */
  function TextField(v: JsVal): (r: string)
    ensures IsNullish(v) ==> r == ""
    ensures v.Str? ==> r == v.s
  {
    if IsNullish(v) then "" else ToStr(v)
  }

  /**
   * The main administrator chat to store. A blank one in the form keeps the
   * chat linked from Telegram, so a panel opened before the link does not
   * erase it; `None` when that stored chat is truthy but not text, where
   * `.trim` throws and nothing is saved.
   */
  function NotifyTarget(body: JsObject, prev: Option<JsObject>): (r: Option<string>)
    ensures TrimmedField(Get(body, "notifyTarget")) != "" ==> r == Some(TrimmedField(Get(body, "notifyTarget")))
    ensures prev.None? ==> r == Some(TrimmedField(Get(body, "notifyTarget")))
    ensures TrimmedField(Get(body, "notifyTarget")) == "" && prev.Some? ==>
      var kept := Get(prev.value, "notifyTarget");
      && (r.None? <==> Truthy(kept) && !kept.Str?)
      && (kept.Str? ==> r == Some(Trim(kept.s)))
      && (!Truthy(kept) ==> r == Some(""))
  {
    var given := TrimmedField(Get(body, "notifyTarget"));
    if given != "" || prev.None? then Some(given)
    else TrimmedOr(Get(prev.value, "notifyTarget"))
  }

  // ---------------------------------------------------------------------
  // reminderDaysBefore

  /** No day is negative. */
  predicate NonNegative(s: seq<int>)
    decreases |s|
  {
    s == [] || (s[0] >= 0 && NonNegative(s[1..]))
  }

  lemma {:induction false} NonNegativeValues(s: seq<int>)
    ensures NonNegative(s) <==> forall v :: v in multiset(s) ==> v >= 0
    decreases |s|
  {
    if s != [] {
      var t := s[1..];
      NonNegativeValues(t);
      assert s == [s[0]] + t;
      assert multiset(s) == multiset{s[0]} + multiset(t);
      if NonNegative(s) {
        forall v | v in multiset(s)
          ensures v >= 0
        {
          if v != s[0] {
            assert v in multiset(t);
          }
        }
      } else if s[0] >= 0 {
        var v :| v in multiset(t) && v < 0;
        assert v in multiset(s);
      } else {
        assert s[0] in multiset(s);
      }
    }
  }

  /** Sorting keeps the days non-negative. */
  lemma NonNegativeSorted(s: seq<int>)
    requires NonNegative(s)
    ensures NonNegative(SortDesc(s))
  {
    NonNegativeValues(s);
    NonNegativeValues(SortDesc(s));
  }

  /** `items.filter((d) => typeof d === 'number' && d >= 0)`. */
  function KeepDays(items: seq<JsVal>): (r: seq<int>)
    ensures |r| <= |items| && NonNegative(r)
  {
    if items == [] then []
    else
      var rest := KeepDays(items[1..]);
      if items[0].Num? && items[0].n >= 0 then [items[0].n] + rest else rest
  }

  /** A day is kept from an array exactly when the array holds it as a non-negative number. */
  lemma {:induction false} KeepDaysMembers(items: seq<JsVal>, x: int)
    ensures x in KeepDays(items) <==> x >= 0 && Num(x) in items
  {
    if items != [] {
      KeepDaysMembers(items[1..], x);
      assert items == [items[0]] + items[1..];
    }
  }

  /** The characters of `/[,،\s]+/`: comma, Arabic comma and white space. */
  predicate IsDaySep(c: char) {
    c == ',' || c == '،' || IsSpace(c)
  }

  predicate NoDaySep(s: string) {
    forall i :: 0 <= i < |s| ==> !IsDaySep(s[i])
  }

  function DropSeps(s: string): (r: string)
    ensures |r| <= |s|
    ensures r == [] || !IsDaySep(r[0])
  {
    if s != [] && IsDaySep(s[0]) then DropSeps(s[1..]) else s
  }

  /** `s.split(/[,،\s]+/)`: a run of separators ends a token; one at either end leaves an empty token there. */
  function Tokens(s: string): (r: seq<string>)
    ensures |r| >= 1
    decreases |s|
  {
    if s == [] then [[]]
    else if IsDaySep(s[0]) then [[]] + Tokens(DropSeps(s[1..]))
    else
      var rest := Tokens(s[1..]);
      [[s[0]] + rest[0]] + rest[1..]
  }

  /** The leading decimal digits of `s`. */
  function DigitPrefix(s: string): (r: string)
    ensures AllDigits(r) && |r| <= |s| && r == s[..|r|]
    ensures |r| < |s| ==> !IsDigit(s[|r|])
  {
    if s != [] && IsDigit(s[0]) then [s[0]] + DigitPrefix(s[1..]) else []
  }

  /** `t` holds a number starting at `k`: only white space before it, then a digit, or a sign and a digit. */
  predicate NumberAt(t: string, k: int) {
    && 0 <= k < |t|
    && (forall i :: 0 <= i < k ==> IsSpace(t[i]))
    && (IsDigit(t[k]) || ((t[k] == '-' || t[k] == '+') && k + 1 < |t| && IsDigit(t[k + 1])))
  }

  /** `parseInt(t, 10)`: leading space, an optional sign, then the leading digits; `None` for NaN. */
  function ParseInt(t: string): (r: Option<int>)
    ensures r.Some? <==> exists k :: NumberAt(t, k)
  {
    NumberStarts(t);
    var s := TrimStart(t);
    var ds := DigitPrefix(Unsigned(s));
    if ds == [] then None
    else if Negative(s) then Some(-(ParseDigits(ds) as int))
    else Some(ParseDigits(ds))
  }

  /** After the leading space and the sign there is a digit exactly when a number starts somewhere in `t`. */
  lemma {:induction false} NumberStarts(t: string)
    ensures DigitPrefix(Unsigned(TrimStart(t))) != [] <==> exists k :: NumberAt(t, k)
  {
    if t != [] && IsSpace(t[0]) {
      NumberStarts(t[1..]);
      assert !NumberAt(t, 0);
      forall k | NumberAt(t, k) ensures NumberAt(t[1..], k - 1) { }
      forall k | NumberAt(t[1..], k) ensures NumberAt(t, k + 1) { }
    } else {
      assert TrimStart(t) == t;
      forall k | NumberAt(t, k) ensures k == 0 { }
      if NumberAt(t, 0) {
        assert Unsigned(t)[0] == if IsDigit(t[0]) then t[0] else t[1];
      }
    }
  }

  /** The decimal text of a number, signed or not and followed by anything but a digit, parses back to the number. */
  lemma ParseIntOfText(n: nat, rest: string)
    requires rest == [] || !IsDigit(rest[0])
    ensures ParseInt(NatToStr(n) + rest) == Some(n)
    ensures ParseInt("+" + (NatToStr(n) + rest)) == Some(n)
    ensures ParseInt("-" + (NatToStr(n) + rest)) == Some(-(n as int))
  {
    var t := NatToStr(n) + rest;
    DigitPrefixOf(NatToStr(n), rest);
    ParseNatToStr(n);
    assert t[0] == NatToStr(n)[0];
    ParseIntBare(t);
    ParseIntPlus(t);
    ParseIntMinus(t);
  }

  /** Text starting with a digit reads as its leading digits. */
  lemma ParseIntBare(t: string)
    requires t != [] && IsDigit(t[0])
    ensures ParseInt(t) == Some(ParseDigits(DigitPrefix(t)))
  {
    assert TrimStart(t) == t && Unsigned(t) == t;
  }

  /** Behind a plus sign it reads the same. */
  lemma ParseIntPlus(t: string)
    requires t != [] && IsDigit(t[0])
    ensures ParseInt("+" + t) == Some(ParseDigits(DigitPrefix(t)))
  {
    assert TrimStart("+" + t) == "+" + t && Unsigned("+" + t) == t;
  }

  /** Behind a minus sign it reads negated. */
  lemma ParseIntMinus(t: string)
    requires t != [] && IsDigit(t[0])
    ensures ParseInt("-" + t) == Some(-(ParseDigits(DigitPrefix(t)) as int))
  {
    assert TrimStart("-" + t) == "-" + t && Unsigned("-" + t) == t;
  }

  /** Leading white space does not change what `parseInt` reads. */
  lemma ParseIntSkipsSpace(c: char, t: string)
    requires IsSpace(c)
    ensures ParseInt([c] + t) == ParseInt(t)
  {
    assert ([c] + t)[1..] == t;
    assert TrimStart([c] + t) == TrimStart(t);
  }

  predicate Negative(s: string) {
    s != [] && s[0] == '-'
  }

  function Unsigned(s: string): string {
    if s != [] && (s[0] == '-' || s[0] == '+') then s[1..] else s
  }

  /** `.map((s) => parseInt(s, 10)).filter((n) => !isNaN(n) && n >= 0)`. */
  function KeepParsed(tokens: seq<string>): (r: seq<int>)
    ensures |r| <= |tokens| && NonNegative(r)
  {
    if tokens == [] then []
    else
      var rest := KeepParsed(tokens[1..]);
      var n := ParseInt(tokens[0]);
      if n.Some? && n.value >= 0 then [n.value] + rest else rest
  }

  /** The days as the form gives them: an array or a separated text, before the empty fallback. */
  function ParsedDays(v: JsVal): (r: seq<int>)
    ensures SortedDesc(r) && NonNegative(r)
    ensures v.Arr? ==> multiset(r) == multiset(KeepDays(v.items))
    ensures v.Str? ==> multiset(r) == multiset(KeepParsed(Tokens(v.s)))
    ensures !v.Arr? && !v.Str? ==> r == DEFAULT_DAYS
  {
    if v.Arr? then
      NonNegativeSorted(KeepDays(v.items));
      SortDesc(KeepDays(v.items))
    else if v.Str? then
      NonNegativeSorted(KeepParsed(Tokens(v.s)));
      SortDesc(KeepParsed(Tokens(v.s)))
    else DEFAULT_DAYS
  }

  /**
   * The days stored: the parsed ones, largest first, or `[7, 3, 1]` when
   * none survive; never empty and never negative, as the reminder sweep
   * expects.
   */
  function StoredDays(v: JsVal): (r: seq<int>)
    ensures r != [] && SortedDesc(r) && NonNegative(r)
    ensures ParsedDays(v) != [] ==> r == ParsedDays(v)
  {
    var ds := ParsedDays(v);
    if ds == [] then DEFAULT_DAYS else ds
  }

  // ---------------------------------------------------------------------
  // Round trip of the text form

  /** The text the panel sends for a list of days: the numbers joined by commas. */
  function DaysText(xs: seq<nat>): string
    requires xs != []
  {
    Join(NatTexts(xs), ',')
  }

  function NatTexts(xs: seq<nat>): (r: seq<string>)
    ensures |r| == |xs| && forall i :: 0 <= i < |r| ==> r[i] == NatToStr(xs[i])
  {
    if xs == [] then [] else [NatToStr(xs[0])] + NatTexts(xs[1..])
  }

  /** Days typed as `7,3,1` (in any order) are stored as those days, largest first. */
  lemma DaysTextRoundTrip(xs: seq<nat>)
    requires xs != []
    ensures StoredDays(Str(DaysText(xs))) == SortDesc(xs)
  {
    var ts := NatTexts(xs);
    forall i | 0 <= i < |ts|
      ensures ts[i] != [] && NoDaySep(ts[i])
    {
      DigitsNoSep(ts[i]);
    }
    TokensJoin(ts);
    KeepParsedTexts(xs);
    SortedUnique(ParsedDays(Str(DaysText(xs))), SortDesc(xs));
  }

  lemma DigitsNoSep(s: string)
    requires AllDigits(s)
    ensures NoDaySep(s)
  {
  }

  /** Separator-free, non-empty tokens joined by commas split back into those tokens. */
  lemma {:induction false} TokensJoin(ps: seq<string>)
    requires |ps| >= 1
    requires forall i :: 0 <= i < |ps| ==> ps[i] != [] && NoDaySep(ps[i])
    ensures Tokens(Join(ps, ',')) == ps
  {
    if |ps| == 1 {
      TokensPlain(ps[0]);
    } else {
      var rest := Join(ps[1..], ',');
      assert rest[..|ps[1]|] == ps[1] by { JoinPrefix(ps[1..]); }
      TokensAfter(ps[0], rest);
      TokensJoin(ps[1..]);
    }
  }

  lemma {:induction false} JoinPrefix(ps: seq<string>)
    requires |ps| >= 1
    ensures |ps[0]| <= |Join(ps, ',')| && Join(ps, ',')[..|ps[0]|] == ps[0]
  {
  }

  lemma {:induction false} TokensPlain(a: string)
    requires NoDaySep(a)
    ensures Tokens(a) == [a]
  {
    if a != [] {
      TokensPlain(a[1..]);
      assert [a[0]] + a[1..] == a;
    }
  }

  lemma {:induction false} TokensAfter(a: string, b: string)
    requires NoDaySep(a)
    requires b == [] || !IsDaySep(b[0])
    ensures Tokens(a + [','] + b) == [a] + Tokens(b)
  {
    if a == [] {
      assert a + [','] + b == [','] + b;
      assert ([','] + b)[1..] == b;
    } else {
      assert (a + [','] + b)[1..] == a[1..] + [','] + b;
      TokensAfter(a[1..], b);
      assert [a[0]] + a[1..] == a;
    }
  }

  /** Every number's decimal text parses back to it. */
  lemma {:induction false} KeepParsedTexts(xs: seq<nat>)
    ensures KeepParsed(NatTexts(xs)) == xs
  {
    if xs != [] {
      ParseIntOfText(xs[0], []);
      assert NatToStr(xs[0]) + [] == NatToStr(xs[0]);
      assert NatTexts(xs)[1..] == NatTexts(xs[1..]);
      KeepParsedTexts(xs[1..]);
    }
  }

  /** The leading digits of digits followed by a non-digit are those digits. */
  lemma {:induction false} DigitPrefixOf(ds: string, rest: string)
    requires AllDigits(ds) && (rest == [] || !IsDigit(rest[0]))
    ensures DigitPrefix(ds + rest) == ds
  {
    if ds != [] {
      DigitPrefixOf(ds[1..], rest);
      assert (ds + rest)[1..] == ds[1..] + rest;
      assert [ds[0]] + ds[1..] == ds;
    }
  }

  // ---------------------------------------------------------------------
  // The settings object

  /** The settings the panel edits, one field per key of the stored object. */
  datatype Form = Form(
    adminTarget: JsVal,
    adminChannelTarget: JsVal,
    adminGroupTarget: JsVal,
    notifyTarget: JsVal,
    sendReceiptMember: bool,
    sendReceiptGroup: bool,
    sendManualPaymentGroup: bool,
    sendLoanRequestGroup: bool,
    sendLoanRequestToAdmin: bool,
    sendPaymentToAdmin: bool,
    receiptMemberTemplate: JsVal,
    receiptGroupTemplate: JsVal,
    manualPaymentGroupTemplate: JsVal,
    broadcastWaitingTemplate: JsVal,
    broadcastWaitingLineTemplate: JsVal,
    loanRequestAdminTemplate: JsVal,
    paymentAdminTemplate: JsVal,
    reminderDaysBefore: JsVal,
    sendReminderToMember: bool,
    sendOverdueListToAdmin: bool,
    sendOverdueListToGroup: bool,
    sendOverdueListToMember: bool)

  /** The form as a JSON object, as the panel receives it. */
  function ToObject(f: Form): JsObject {
    map[
      "adminTarget" := f.adminTarget,
      "adminChannelTarget" := f.adminChannelTarget,
      "adminGroupTarget" := f.adminGroupTarget,
      "notifyTarget" := f.notifyTarget,
      "sendReceiptMember" := Bool(f.sendReceiptMember),
      "sendReceiptGroup" := Bool(f.sendReceiptGroup),
      "sendManualPaymentGroup" := Bool(f.sendManualPaymentGroup),
      "sendLoanRequestGroup" := Bool(f.sendLoanRequestGroup),
      "sendLoanRequestToAdmin" := Bool(f.sendLoanRequestToAdmin),
      "sendPaymentToAdmin" := Bool(f.sendPaymentToAdmin),
      "receiptMemberTemplate" := f.receiptMemberTemplate,
      "receiptGroupTemplate" := f.receiptGroupTemplate,
      "manualPaymentGroupTemplate" := f.manualPaymentGroupTemplate,
      "broadcastWaitingTemplate" := f.broadcastWaitingTemplate,
      "broadcastWaitingLineTemplate" := f.broadcastWaitingLineTemplate,
      "loanRequestAdminTemplate" := f.loanRequestAdminTemplate,
      "paymentAdminTemplate" := f.paymentAdminTemplate,
      "reminderDaysBefore" := f.reminderDaysBefore,
      "sendReminderToMember" := Bool(f.sendReminderToMember),
      "sendOverdueListToAdmin" := Bool(f.sendOverdueListToAdmin),
      "sendOverdueListToGroup" := Bool(f.sendOverdueListToGroup),
      "sendOverdueListToMember" := Bool(f.sendOverdueListToMember)
    ]
  }

  /** What the save writes: the form plus the digest's last-sent day, and nothing else. */
  function Stored(f: Form, last: JsVal): JsObject {
    ToObject(f)[LAST_SENT := last]
  }

  /** The shape every save produces: trimmed destinations, text templates, and the days as they are stored. */
  predicate Clean(f: Form) {
    CleanTexts(f) && f.reminderDaysBefore == Arr(Days(StoredDays(f.reminderDaysBefore)))
  }

  predicate Trimmed(v: JsVal) {
    v.Str? && v.s == Trim(v.s)
  }

  predicate CleanTexts(f: Form) {
    && Trimmed(f.adminTarget) && Trimmed(f.adminChannelTarget)
    && Trimmed(f.adminGroupTarget) && Trimmed(f.notifyTarget)
    && f.receiptMemberTemplate.Str? && f.receiptGroupTemplate.Str?
    && f.manualPaymentGroupTemplate.Str? && f.broadcastWaitingTemplate.Str?
    && f.broadcastWaitingLineTemplate.Str? && f.loanRequestAdminTemplate.Str?
    && f.paymentAdminTemplate.Str?
  }

  // Reading a key of the object is a chain of key comparisons; these lemmas do a few at a time.

  lemma GetAdminTarget(f: Form)
    ensures var o := ToObject(f);
      Get(o, "adminTarget") == f.adminTarget
  {
  }

  lemma GetChannelTarget(f: Form)
    ensures var o := ToObject(f);
      Get(o, "adminChannelTarget") == f.adminChannelTarget
  {
  }

  lemma GetGroupTarget(f: Form)
    ensures var o := ToObject(f);
      Get(o, "adminGroupTarget") == f.adminGroupTarget
  {
  }

  lemma GetNotifyTarget(f: Form)
    ensures var o := ToObject(f);
      Get(o, "notifyTarget") == f.notifyTarget
  {
  }

  lemma GetReceiptFlags(f: Form)
    ensures var o := ToObject(f);
      && Get(o, "sendReceiptMember") == Bool(f.sendReceiptMember)
      && Get(o, "sendReceiptGroup") == Bool(f.sendReceiptGroup)
  {
  }

  lemma GetGroupFlags(f: Form)
    ensures var o := ToObject(f);
      && Get(o, "sendManualPaymentGroup") == Bool(f.sendManualPaymentGroup)
      && Get(o, "sendLoanRequestGroup") == Bool(f.sendLoanRequestGroup)
  {
  }

  lemma GetAdminFlags(f: Form)
    ensures var o := ToObject(f);
      && Get(o, "sendLoanRequestToAdmin") == Bool(f.sendLoanRequestToAdmin)
      && Get(o, "sendPaymentToAdmin") == Bool(f.sendPaymentToAdmin)
  {
  }

  lemma GetMemberTemplates(f: Form)
    ensures var o := ToObject(f);
      && Get(o, "receiptMemberTemplate") == f.receiptMemberTemplate
      && Get(o, "receiptGroupTemplate") == f.receiptGroupTemplate
      && Get(o, "manualPaymentGroupTemplate") == f.manualPaymentGroupTemplate
  {
  }

  lemma GetOtherTemplates(f: Form)
    ensures var o := ToObject(f);
      && Get(o, "broadcastWaitingTemplate") == f.broadcastWaitingTemplate
      && Get(o, "broadcastWaitingLineTemplate") == f.broadcastWaitingLineTemplate
      && Get(o, "loanRequestAdminTemplate") == f.loanRequestAdminTemplate
      && Get(o, "paymentAdminTemplate") == f.paymentAdminTemplate
  {
  }

  lemma GetDaysAndDigest(f: Form)
    ensures var o := ToObject(f);
      && Get(o, "reminderDaysBefore") == f.reminderDaysBefore
      && Get(o, "sendReminderToMember") == Bool(f.sendReminderToMember)
      && Get(o, "sendOverdueListToAdmin") == Bool(f.sendOverdueListToAdmin)
      && Get(o, "sendOverdueListToGroup") == Bool(f.sendOverdueListToGroup)
      && Get(o, "sendOverdueListToMember") == Bool(f.sendOverdueListToMember)
  {
  }

  /** Every key of the form reads back its field. */
  lemma GetAll(f: Form)
    ensures var o := ToObject(f);
      && Get(o, "adminTarget") == f.adminTarget
      && Get(o, "adminChannelTarget") == f.adminChannelTarget
      && Get(o, "adminGroupTarget") == f.adminGroupTarget
      && Get(o, "notifyTarget") == f.notifyTarget
      && Get(o, "sendReceiptMember") == Bool(f.sendReceiptMember)
      && Get(o, "sendReceiptGroup") == Bool(f.sendReceiptGroup)
      && Get(o, "sendManualPaymentGroup") == Bool(f.sendManualPaymentGroup)
      && Get(o, "sendLoanRequestGroup") == Bool(f.sendLoanRequestGroup)
      && Get(o, "sendLoanRequestToAdmin") == Bool(f.sendLoanRequestToAdmin)
      && Get(o, "sendPaymentToAdmin") == Bool(f.sendPaymentToAdmin)
      && Get(o, "receiptMemberTemplate") == f.receiptMemberTemplate
      && Get(o, "receiptGroupTemplate") == f.receiptGroupTemplate
      && Get(o, "manualPaymentGroupTemplate") == f.manualPaymentGroupTemplate
      && Get(o, "broadcastWaitingTemplate") == f.broadcastWaitingTemplate
      && Get(o, "broadcastWaitingLineTemplate") == f.broadcastWaitingLineTemplate
      && Get(o, "loanRequestAdminTemplate") == f.loanRequestAdminTemplate
      && Get(o, "paymentAdminTemplate") == f.paymentAdminTemplate
      && Get(o, "reminderDaysBefore") == f.reminderDaysBefore
      && Get(o, "sendReminderToMember") == Bool(f.sendReminderToMember)
      && Get(o, "sendOverdueListToAdmin") == Bool(f.sendOverdueListToAdmin)
      && Get(o, "sendOverdueListToGroup") == Bool(f.sendOverdueListToGroup)
      && Get(o, "sendOverdueListToMember") == Bool(f.sendOverdueListToMember)
  {
    GetAdminTarget(f);
    GetChannelTarget(f);
    GetGroupTarget(f);
    GetNotifyTarget(f);
    GetReceiptFlags(f);
    GetGroupFlags(f);
    GetAdminFlags(f);
    GetMemberTemplates(f);
    GetOtherTemplates(f);
    GetDaysAndDigest(f);
  }

  /** The last-sent day is kept apart from the form's keys, so storing it hides none of them. */
  lemma LastSentApart(f: Form, last: JsVal)
    ensures LAST_SENT !in ToObject(f)
    ensures forall k :: k in ToObject(f) ==> Get(Stored(f, last), k) == Get(ToObject(f), k)
  {
  }

  // ---------------------------------------------------------------------
  // The save

  /** `(db.telegramSettings && db.telegramSettings.overdueListLastSentDate) || ''`. */
  function LastSent(prev: Option<JsObject>): (r: JsVal)
    ensures prev.None? ==> r == Str("")
    ensures prev.Some? ==> r == OrEmpty(Get(prev.value, LAST_SENT))
  {
    if prev.None? then Str("") else OrEmpty(Get(prev.value, LAST_SENT))
  }

  /** The form the save builds from the request body, given the chat to keep. */
  function SavedForm(body: JsObject, notify: string): (f: Form)
    ensures f.notifyTarget == Str(notify)
    ensures !f.sendReceiptMember <==> Get(body, "sendReceiptMember") == Bool(false)
    ensures f.sendOverdueListToAdmin <==> Get(body, "sendOverdueListToAdmin") == Bool(true)
    ensures f.sendOverdueListToGroup <==> Get(body, "sendOverdueListToGroup") == Bool(true)
    ensures f.sendOverdueListToMember <==> Get(body, "sendOverdueListToMember") == Bool(true)
    ensures Get(body, "paymentAdminTemplate").Str? ==> f.paymentAdminTemplate == Get(body, "paymentAdminTemplate")
    ensures f.reminderDaysBefore == Arr(Days(StoredDays(Get(body, "reminderDaysBefore"))))
  {
    Form(
      Str(TrimmedField(Get(body, "adminTarget"))),
      Str(TrimmedField(Get(body, "adminChannelTarget"))),
      Str(TrimmedField(Get(body, "adminGroupTarget"))),
      Str(notify),
      NotFalse(Get(body, "sendReceiptMember")),
      NotFalse(Get(body, "sendReceiptGroup")),
      NotFalse(Get(body, "sendManualPaymentGroup")),
      NotFalse(Get(body, "sendLoanRequestGroup")),
      NotFalse(Get(body, "sendLoanRequestToAdmin")),
      NotFalse(Get(body, "sendPaymentToAdmin")),
      Str(TextField(Get(body, "receiptMemberTemplate"))),
      Str(TextField(Get(body, "receiptGroupTemplate"))),
      Str(TextField(Get(body, "manualPaymentGroupTemplate"))),
      Str(TextField(Get(body, "broadcastWaitingTemplate"))),
      Str(TextField(Get(body, "broadcastWaitingLineTemplate"))),
      Str(TextField(Get(body, "loanRequestAdminTemplate"))),
      Str(TextField(Get(body, "paymentAdminTemplate"))),
      Arr(Days(StoredDays(Get(body, "reminderDaysBefore")))),
      NotFalse(Get(body, "sendReminderToMember")),
      IsTrue(Get(body, "sendOverdueListToAdmin")),
      IsTrue(Get(body, "sendOverdueListToGroup")),
      IsTrue(Get(body, "sendOverdueListToMember")))
  }

  /** The new settings object, or `None` when the handler throws before storing it. */
  function Saved(body: JsObject, prev: Option<JsObject>): (r: Option<JsObject>)
    ensures r.None? <==> NotifyTarget(body, prev).None?
  {
    match NotifyTarget(body, prev)
    case None => None
    case Some(notify) => Some(Stored(SavedForm(body, notify), LastSent(prev)))
  }

  /** Every save has the clean shape, whatever the body held. */
  lemma SavedClean(body: JsObject, notify: string)
    requires notify == Trim(notify)
    ensures Clean(SavedForm(body, notify))
  {
    StoredDaysStable(StoredDays(Get(body, "reminderDaysBefore")));
  }

  /** The chat a save keeps is always trimmed. */
  lemma NotifyTrimmed(body: JsObject, prev: Option<JsObject>)
    requires NotifyTarget(body, prev).Some?
    ensures NotifyTarget(body, prev).value == Trim(NotifyTarget(body, prev).value)
  {
    var v := Get(body, "notifyTarget");
    if !IsNullish(v) {
      TrimIdempotent(ToStr(v));
    }
    if prev.Some? && Get(prev.value, "notifyTarget").Str? {
      TrimIdempotent(Get(prev.value, "notifyTarget").s);
    }
  }

  /** Stored days saved again are stored unchanged. */
  lemma StoredDaysStable(ds: seq<int>)
    requires ds != [] && SortedDesc(ds) && NonNegative(ds)
    ensures StoredDays(Arr(Days(ds))) == ds
  {
    KeepAllDays(ds);
    SortedUnique(SortDesc(ds), ds);
  }

  lemma {:induction false} KeepAllDays(ds: seq<int>)
    requires NonNegative(ds)
    ensures KeepDays(Days(ds)) == ds
  {
    if ds != [] {
      assert Days(ds) == [Num(ds[0])] + Days(ds[1..]);
      assert Days(ds)[1..] == Days(ds[1..]);
      KeepAllDays(ds[1..]);
    }
  }

  /**
   * Saving never reopens the daily overdue digest: the last-sent day is
   * carried over, so the gate is open after a save exactly when some digest
   * flag in the form is `true` and the digest has not gone out that day.
   */
  lemma SaveKeepsGate(body: JsObject, prev: Option<JsObject>, today: string)
    requires Saved(body, prev).Some?
    ensures Reminders.DigestOpen(Saved(body, prev).value, today) <==>
      (IsTrue(Get(body, "sendOverdueListToAdmin")) || IsTrue(Get(body, "sendOverdueListToGroup"))
        || IsTrue(Get(body, "sendOverdueListToMember")))
      && LastSent(prev) != Str(today)
  {
    var f := SavedForm(body, NotifyTarget(body, prev).value);
    StoredGate(f, LastSent(prev), today);
  }

  /** The gate on a stored object reads the form's digest flags and the stored last-sent day. */
  lemma StoredGate(f: Form, last: JsVal, today: string)
    ensures Reminders.DigestOpen(Stored(f, last), today) <==>
      (f.sendOverdueListToAdmin || f.sendOverdueListToGroup || f.sendOverdueListToMember)
      && OrEmpty(last) != Str(today)
  {
    GetDaysAndDigest(f);
    LastSentApart(f, last);
  }

  /** The reminder sweep, reading a saved object, gets the stored days. */
  lemma SweepReadsSavedDays(body: JsObject, notify: string, last: JsVal)
    ensures Reminders.ReminderDays(Stored(SavedForm(body, notify), last)) == Days(StoredDays(Get(body, "reminderDaysBefore")))
  {
    var f := SavedForm(body, notify);
    GetDaysAndDigest(f);
    LastSentApart(f, last);
  }

  // ---------------------------------------------------------------------
  // The read

  /** `GET /admin/telegram-settings` on `db.telegramSettings || {}`. */
  function FormOf(ts: JsObject): (f: Form)
    ensures f.sendReceiptMember <==> Get(ts, "sendReceiptMember") != Bool(false)
    ensures f.sendOverdueListToAdmin <==> Get(ts, "sendOverdueListToAdmin") == Bool(true)
    ensures f.reminderDaysBefore.Arr?
  {
    Form(
      OrEmpty(Get(ts, "adminTarget")),
      OrEmpty(Get(ts, "adminChannelTarget")),
      OrEmpty(Get(ts, "adminGroupTarget")),
      OrEmpty(Get(ts, "notifyTarget")),
      NotFalse(Get(ts, "sendReceiptMember")),
      NotFalse(Get(ts, "sendReceiptGroup")),
      NotFalse(Get(ts, "sendManualPaymentGroup")),
      NotFalse(Get(ts, "sendLoanRequestGroup")),
      NotFalse(Get(ts, "sendLoanRequestToAdmin")),
      NotFalse(Get(ts, "sendPaymentToAdmin")),
      OrEmpty(Get(ts, "receiptMemberTemplate")),
      OrEmpty(Get(ts, "receiptGroupTemplate")),
      OrEmpty(Get(ts, "manualPaymentGroupTemplate")),
      OrEmpty(Get(ts, "broadcastWaitingTemplate")),
      OrEmpty(Get(ts, "broadcastWaitingLineTemplate")),
      OrEmpty(Get(ts, "loanRequestAdminTemplate")),
      OrEmpty(Get(ts, "paymentAdminTemplate")),
      ViewDays(Get(ts, "reminderDaysBefore")),
      NotFalse(Get(ts, "sendReminderToMember")),
      IsTrue(Get(ts, "sendOverdueListToAdmin")),
      IsTrue(Get(ts, "sendOverdueListToGroup")),
      IsTrue(Get(ts, "sendOverdueListToMember")))
  }

  /** `Array.isArray(x) ? x : [7, 3, 1]`: unlike the save, the read does not filter. */
  function ViewDays(v: JsVal): (r: JsVal)
    ensures v.Arr? ==> r == v
    ensures !v.Arr? ==> r == Arr(Days(DEFAULT_DAYS))
  {
    if v.Arr? then v else Arr(Days(DEFAULT_DAYS))
  }

  /** With nothing stored, the panel shows every notice on, no digest and the default days. */
  lemma ViewDefaults()
    ensures var f := FormOf(map[]);
      && f.sendReceiptMember && f.sendReceiptGroup && f.sendManualPaymentGroup
      && f.sendLoanRequestGroup && f.sendLoanRequestToAdmin && f.sendPaymentToAdmin
      && f.sendReminderToMember
      && !f.sendOverdueListToAdmin && !f.sendOverdueListToGroup && !f.sendOverdueListToMember
      && f.reminderDaysBefore == Arr([Num(7), Num(3), Num(1)])
      && f.notifyTarget == Str("") && f.paymentAdminTemplate == Str("")
  {
  }

  /** Reading back a save shows exactly the form that was saved. */
  lemma {:induction false} ReadBack(f: Form, last: JsVal)
    requires Clean(f)
    ensures FormOf(Stored(f, last)) == f
  {
    GetAll(f);
    LastSentApart(f, last);
  }

  /**
   * Saving the form as the panel shows it, unchanged, leaves the stored
   * settings exactly as they were.
   */
  lemma SaveUnchanged(body: JsObject, prev: Option<JsObject>)
    requires Saved(body, prev).Some?
    ensures var s := Saved(body, prev).value;
      Saved(ToObject(FormOf(s)), Some(s)) == Some(s)
  {
    var notify := NotifyTarget(body, prev).value;
    var f := SavedForm(body, notify);
    var last := LastSent(prev);
    var s := Stored(f, last);
    NotifyTrimmed(body, prev);
    SavedClean(body, notify);
    ReadBack(f, last);
    ResaveForm(f, notify);
    ResaveNotify(f, notify, last);
    assert LastSent(Some(s)) == last;
  }

  /** Saving the shown chat again keeps it, whether or not it is blank. */
  lemma ResaveNotify(f: Form, notify: string, last: JsVal)
    requires f.notifyTarget == Str(notify) && notify == Trim(notify)
    ensures NotifyTarget(ToObject(f), Some(Stored(f, last))) == Some(notify)
  {
    GetNotifyTarget(f);
    LastSentApart(f, last);
    assert Get(Stored(f, last), "notifyTarget") == Str(notify);
  }

  lemma ResaveForm(f: Form, notify: string)
    requires Clean(f) && f.notifyTarget == Str(notify)
    ensures SavedForm(ToObject(f), notify) == f
  {
    GetAll(f);
  }

  // ---------------------------------------------------------------------
  // The handler

  datatype Answer = Hang | Answer(status: int, body: JsObject)

  /**
   * `POST /admin/telegram-settings`: stores the normalised settings, then
   * persists them (`persisted` is whether that succeeded). The object is
   * replaced before persisting, so a failed write answers 500 but the new
   * settings stay in memory. The reply echoes the form.
   */
  method SaveSettings(db: Db, body: JsObject, persisted: bool) returns (answer: Answer)
    modifies db`telegramSettings
    ensures Saved(body, old(db.telegramSettings)).None? ==>
      answer == Hang && db.telegramSettings == old(db.telegramSettings)
    ensures Saved(body, old(db.telegramSettings)).Some? ==>
      var notify := NotifyTarget(body, old(db.telegramSettings)).value;
      && db.telegramSettings == Saved(body, old(db.telegramSettings))
      && answer == if persisted then Answer(200, ToObject(SavedForm(body, notify))["success" := Bool(true)])
                   else Answer(500, map["success" := Bool(false)])
  {
    var notify := TrimmedField(Get(body, "notifyTarget"));
    if notify == "" && db.telegramSettings.Some? {
      var kept := TrimmedOr(Get(db.telegramSettings.value, "notifyTarget"));
      if kept.None? {
        return Hang;
      }
      if kept.value != "" {
        notify := kept.value;
      }
    }
    var form := SavedForm(body, notify);
    db.telegramSettings := Some(Stored(form, LastSent(db.telegramSettings)));
    if persisted {
      answer := Answer(200, ToObject(form)["success" := Bool(true)]);
    } else {
      answer := Answer(500, map["success" := Bool(false)]);
    }
  }
}
