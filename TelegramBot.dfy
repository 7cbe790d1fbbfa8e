/**
 * The members' Telegram bot: the menu, linking a chat to a member by
 * national id, the loan-request rules, the payment list, and the three
 * per-chat dictionaries of conversations in progress.
 *
 * The bot reaches the backend over HTTP; each request's answer is a
 * parameter here (`Fetch`), with `Failed` for a request that throws.
 */
module TelegramBot {
  import opened Js
  import opened Strings
  import opened Shamsi
  import opened Store

  datatype Fetch<T> = Failed | Got(value: T)

  // ---------------------------------------------------------------------
  // The menu

  /** The reply keyboard's labels and the action each one runs. */
  const MENU_TO_ACTION: map<string, string> := map[
    "💵 پرداخت" := "payment",
    "💰 موجودی سپرده" := "dep_balance",
    "📜 لیست پرداختی\U{200C}ها" := "payment_list",
    "📝 درخواست ثبت وام" := "loan_request",
    "📋 مانده وام" := "loan_balance",
    "🆘 پشتیبانی" := "support"
  ]

  /** The actions an inline button may name directly. */
  const MENU_ACTIONS: set<string> := {"dep_balance", "loan_balance", "payment_list", "payment", "loan_request", "support"}

  /** The keyboard labels lead to exactly the actions an inline button may name. */
  lemma MenuActionsAgree()
    ensures MENU_TO_ACTION.Values == MENU_ACTIONS
  {
    forall a | a in MENU_ACTIONS
      ensures a in MENU_TO_ACTION.Values
    {
      var key :=
        if a == "payment" then "💵 پرداخت"
        else if a == "dep_balance" then "💰 موجودی سپرده"
        else if a == "payment_list" then "📜 لیست پرداختی\U{200C}ها"
        else if a == "loan_request" then "📝 درخواست ثبت وام"
        else if a == "loan_balance" then "📋 مانده وام"
        else "🆘 پشتیبانی";
      assert MENU_TO_ACTION[key] == a;
    }
  }

  // ---------------------------------------------------------------------
  // National ids

  /** What one character contributes: a Persian digit its ASCII digit, an ASCII digit itself, anything else nothing. */
  function KeptDigit(c: char): (r: string)
    ensures |r| <= 1 && AllDigits(r)
  {
    if IsPersianDigit(c) then [DigitChar(PersianValue(c))]
    else if IsDigit(c) then [c]
    else []
  }

  /** The digits of `s`, Persian ones converted, in order. */
  function NationalDigits(s: string): (r: string)
    ensures AllDigits(r) && |r| <= |s|
  {
    if s == [] then [] else NationalDigits(s[..|s| - 1]) + KeptDigit(s[|s| - 1])
  }

  /** `normalizeNationalId`: '' for anything but a non-empty string, else its digits. */
  function NormalizeNationalId(text: JsVal): (r: string)
    ensures AllDigits(r)
    ensures text.Str? ==> |r| <= |text.s|
    ensures !text.Str? || text.s == "" ==> r == ""
  {
    if !Truthy(text) || !text.Str? then ""
    else NationalDigits(RemoveSpaces(Trim(text.s)))
  }

  /** The loop of `normalizeNationalId`, appending to `out` one character at a time. */
  method NormalizeNationalIdLoop(text: JsVal) returns (out: string)
    ensures out == NormalizeNationalId(text)
  {
    if !Truthy(text) || !text.Str? {
      return "";
    }
    var s := RemoveSpaces(Trim(text.s));
    out := "";
    var i := 0;
    while i < |s|
      invariant 0 <= i <= |s|
      invariant out == NationalDigits(s[..i])
    {
      var c := s[i];
      assert s[..i + 1][..i] == s[..i];
      if IsPersianDigit(c) {
        out := out + [DigitChar(PersianValue(c))];
      } else if IsDigit(c) {
        out := out + [c];
      }
      i := i + 1;
    }
    assert s[..i] == s;
  }

  /** `filter` on ASCII digits. */
  function OnlyDigits(s: string): (r: string) {
    if s == [] then [] else OnlyDigits(s[..|s| - 1]) + (if IsDigit(s[|s| - 1]) then [s[|s| - 1]] else [])
  }

  /**
   * The same digits as converting Persian digits first (as `toEnglishNum`
   * does) and then keeping the ASCII digits: every other character,
   * Arabic-Indic digits included, is dropped.
   */
  lemma {:induction false} NationalDigitsByConversion(s: string)
    ensures NationalDigits(s) == OnlyDigits(ToEnglishNum(s))
  {
    if s != [] {
      var t := s[..|s| - 1];
      var c := s[|s| - 1];
      NationalDigitsByConversion(t);
      assert s == t + [c];
      ToEnglishNumSnoc(t, c);
      var e := ToEnglishNum(t) + [EnglishChar(c)];
      assert e[..|e| - 1] == ToEnglishNum(t);
    }
  }

  /** A text of ASCII digits is its own digit list. */
  lemma {:induction false} DigitsKept(s: string)
    requires AllDigits(s)
    ensures NationalDigits(s) == s
  {
    if s != [] {
      DigitsKept(s[..|s| - 1]);
      assert s[..|s| - 1] + [s[|s| - 1]] == s;
    }
  }

  /** Normalising a normalised id changes nothing. */
  lemma NormalizeIdempotent(text: JsVal)
    ensures NormalizeNationalId(Str(NormalizeNationalId(text))) == NormalizeNationalId(text)
  {
    var r := NormalizeNationalId(text);
    if r != "" {
      assert NoSpace(r);
      TrimNoSpace(r);
      RemoveSpacesNoSpace(r);
      DigitsKept(r);
    }
  }

  /** An id typed in Persian digits gives the ASCII digits of the same values. */
  lemma PersianIdAccepted(d: string)
    requires AllDigits(d) && d != []
    ensures NormalizeNationalId(Str(ToPersianDigits(d))) == d
  {
    var p := ToPersianDigits(d);
    assert NoSpace(p) by {
      forall i | 0 <= i < |p|
        ensures !IsSpace(p[i])
      {
        assert IsPersianDigit(p[i]);
      }
    }
    TrimNoSpace(p);
    RemoveSpacesNoSpace(p);
    PersianDigitsOf(d);
  }

  lemma {:induction false} PersianDigitsOf(d: string)
    requires AllDigits(d)
    ensures NationalDigits(ToPersianDigits(d)) == d
  {
    if d != [] {
      var t := d[..|d| - 1];
      var p := ToPersianDigits(d);
      PersianDigitsOf(t);
      assert p[..|p| - 1] == ToPersianDigits(t);
      assert p[|p| - 1] == PersianDigit(DigitValue(d[|d| - 1]));
      assert t + [d[|d| - 1]] == d;
    }
  }

  // ---------------------------------------------------------------------
  // The loan request

  datatype LoanDecision = HasActiveLoan | HasPending | HasApproved | Create

  predicate AnyStatus(statuses: seq<JsVal>, s: string) {
    exists i :: 0 <= i < |statuses| && statuses[i] == Str(s)
  }

  /**
   * `runMenuAction(chatId, 'loan_request')`: the member found for the chat
   * (`None` also when that lookup failed), the statuses of the chat's
   * earlier requests (`Failed` when they could not be read), and whether
   * the "pending" or "approved" reply went out. That reply is sent inside
   * the `try` whose empty `catch` falls through to creating a request, so a
   * reply that fails lets a new request be created after all.
   */
  function LoanRequestDecision(member: Option<Member>, existing: Fetch<seq<JsVal>>, replied: bool): (r: LoanDecision)
    ensures r == HasActiveLoan <==> member.Some? && member.value.loanBalance > 0
    ensures r == HasPending <==>
      !(member.Some? && member.value.loanBalance > 0) && existing.Got? && AnyStatus(existing.value, "pending") && replied
    ensures r == HasApproved <==>
      !(member.Some? && member.value.loanBalance > 0) && existing.Got?
      && !AnyStatus(existing.value, "pending") && AnyStatus(existing.value, "approved") && replied
  {
    if member.Some? && member.value.loanBalance > 0 then HasActiveLoan
    else if existing.Got? && AnyStatus(existing.value, "pending") then (if replied then HasPending else Create)
    else if existing.Got? && AnyStatus(existing.value, "approved") then (if replied then HasApproved else Create)
    else Create
  }

  /**
   * A new pending request is created exactly when the member has no loan
   * balance and either no earlier request is pending or approved, or the
   * earlier requests could not be read, or the reply about them failed.
   */
  lemma CreateWhenClear(member: Option<Member>, existing: Fetch<seq<JsVal>>, replied: bool)
    ensures LoanRequestDecision(member, existing, replied) == Create <==>
      !(member.Some? && member.value.loanBalance > 0)
      && (existing.Failed? || !replied || (!AnyStatus(existing.value, "pending") && !AnyStatus(existing.value, "approved")))
  {
  }

  // ---------------------------------------------------------------------
  // The payment list

  const PAGE: nat := 15

  /** `list.slice(0, 15)`. */
  function Shown<T>(list: seq<T>): (r: seq<T>)
    ensures |r| == Min(|list|, PAGE) && r == list[..|r|]
  {
    if |list| <= PAGE then list else list[..PAGE]
  }

  /** One line of the list: the date as shown, the kind, and the amount in Persian digits. */
  function PaymentLine(dateDisplay: string, kind: JsVal, amount: Option<int>): string {
    dateDisplay + ": " + (if kind == Str("contribution") then "واریز" else "بازپرداخت")
      + " " + FormatNumTelegram(amount) + " تومان"
  }

  const NO_PAYMENTS: string := "پرداختی ثبت\U{200C}شده\U{200C}ای برای شما وجود ندارد."
  const LIST_HEADER: string := "آخرین پرداختی\U{200C}ها:\n\n"
  const MORE: string := "\n\n..."

  /** The reply to `payment_list`, given each payment's line. */
  function PaymentListReply(lines: seq<string>): (r: string)
    ensures lines == [] ==> r == NO_PAYMENTS
    ensures 0 < |lines| <= PAGE ==> r == LIST_HEADER + Join(lines, '\n')
    ensures |lines| > PAGE ==> r == LIST_HEADER + Join(lines[..PAGE], '\n') + MORE
  {
    if lines == [] then NO_PAYMENTS
    else LIST_HEADER + Join(Shown(lines), '\n') + (if |lines| > PAGE then MORE else "")
  }

  /**
   * Read line by line, a non-empty list is the header followed by the
   * payments shown, at most 15 of them, then an empty line and `...` when
   * some were left out.
   */
  lemma PaymentListLines(lines: seq<string>)
    requires lines != [] && forall i :: 0 <= i < |lines| ==> '\n' !in lines[i]
    ensures var r := PaymentListReply(lines);
      && |LIST_HEADER| <= |r| && r[..|LIST_HEADER|] == LIST_HEADER
      && Split(r[|LIST_HEADER|..], '\n') == Shown(lines) + (if |lines| > PAGE then ["", "..."] else [])
  {
    var shown := Shown(lines);
    var tail := if |lines| > PAGE then MORE else "";
    var body := Join(shown, '\n') + tail;
    assert PaymentListReply(lines) == LIST_HEADER + body;
    HeaderRest(LIST_HEADER, body);
    if |lines| > PAGE {
      MoreLines(shown);
      SplitJoinParts(shown + ["", "..."], '\n');
    } else {
      SplitJoinParts(shown, '\n');
    }
  }

  lemma HeaderRest(h: string, b: string)
    ensures |h| <= |h + b| && (h + b)[..|h|] == h && (h + b)[|h|..] == b
  {
  }

  /** The `...` tail is two more lines: an empty one and `...`. */
  lemma MoreLines(shown: seq<string>)
    requires |shown| >= 1
    ensures Join(shown, '\n') + MORE == Join(shown + ["", "..."], '\n')
  {
    var j := Join(shown, '\n');
    JoinSnoc(shown, "", '\n');
    JoinSnoc(shown + [""], "...", '\n');
    assert shown + [""] + ["..."] == shown + ["", "..."];
    MoreSplit(j);
  }

  lemma MoreSplit(j: string)
    ensures j + MORE == (j + ['\n'] + "") + ['\n'] + "..."
  {
  }

  // ---------------------------------------------------------------------
  // Conversations in progress

  /** What the text handler did with a message. */
  datatype TextOutcome =
    | Ignored
    | RejectLoanRequest(id: string, reason: string)
    | MenuAction(action: string)
    | AskAgain
    | NoSuchMember
    | Linked(member: Member, action: string)
    | ServerError

  /** What a menu action or a button did, as far as the dictionaries are concerned. */
  datatype ActionOutcome = Done | AskedToLink | Decided(decision: LoanDecision) | AskedForReceipt | AskedForReason(id: string) | RunAction(action: string)

  /**
   * The bot's three dictionaries keyed by chat: chats asked for their
   * national id (with the action to resume), chats whose next photo is a
   * receipt (with the member it is for), and administrator chats whose next
   * message is the reason for rejecting a loan request.
   */
  class BotState {
    var pendingLink: map<int, string>
    var pendingReceipt: map<int, JsVal>
    var pendingRejectReason: map<int, string>

    /** A stored rejection always names a request. */
    predicate Valid()
      reads this
    {
      forall c :: c in pendingRejectReason ==> pendingRejectReason[c] != ""
    }

    constructor()
      ensures Valid()
      ensures pendingLink == map[] && pendingReceipt == map[] && pendingRejectReason == map[]
    {
      pendingLink := map[];
      pendingReceipt := map[];
      pendingRejectReason := map[];
    }

    /**
     * `/start` from a chat: the admin-link variant changes nothing; else a
     * chat with no member behind it is asked for its national id. A failed
     * lookup changes nothing.
     */
    method Start(chatId: int, adminLink: bool, member: Fetch<Option<Member>>)
      requires Valid()
      modifies this
      ensures Valid()
      ensures pendingLink == if !adminLink && member == Got(None) then old(pendingLink)[chatId := "start"] else old(pendingLink)
      ensures pendingReceipt == old(pendingReceipt) && pendingRejectReason == old(pendingRejectReason)
    {
      if !adminLink && member == Got(None) {
        pendingLink := pendingLink[chatId := "start"];
      }
    }

    /**
     * A photo: only a chat waiting for a receipt sends one in, and only a
     * message that does carry a photo is uploaded. Returns the member the
     * receipt was sent for. `answered` is whether the upload and the reply
     * after it went through; when they did not, the chat is told of the
     * error, and `apologised` is whether that reply went through. The wait
     * is cleared unless that last reply fails too, in which case the handler
     * throws before reaching the `delete`.
     */
    method Photo(chatId: int, hasPhoto: bool, answered: bool, apologised: bool) returns (sentFor: Option<JsVal>)
      requires Valid()
      modifies this
      ensures Valid()
      ensures sentFor.Some? <==> chatId in old(pendingReceipt) && hasPhoto
      ensures sentFor.Some? ==> sentFor.value == old(pendingReceipt)[chatId]
      ensures pendingReceipt == if sentFor.Some? && (answered || apologised) then old(pendingReceipt) - {chatId} else old(pendingReceipt)
      ensures pendingLink == old(pendingLink) && pendingRejectReason == old(pendingRejectReason)
    {
      if chatId !in pendingReceipt || !hasPhoto {
        return None;
      }
      sentFor := Some(pendingReceipt[chatId]);
      if answered || apologised {
        pendingReceipt := pendingReceipt - {chatId};
      }
    }

    /**
     * A text message. A reason awaited from the chat is consumed first (its
     * entry removed before the request is rejected); otherwise a chat not
     * being linked gets its menu label's action; otherwise the text is a
     * national id: it must have ten digits, exactly one member must hold it
     * (`found` is that lookup), and the member's chat must be recorded
     * (`patched`) before the wait is cleared.
     */
    method Text(chatId: int, raw: string, found: Fetch<seq<Member>>, patched: bool) returns (out: TextOutcome)
      requires Valid()
      modifies this
      ensures Valid()
      ensures pendingReceipt == old(pendingReceipt)
      ensures out.RejectLoanRequest? <==> Trim(raw) != "" && !StartsWith(raw, "/") && chatId in old(pendingRejectReason)
      ensures pendingRejectReason == if out.RejectLoanRequest? then old(pendingRejectReason) - {chatId} else old(pendingRejectReason)
      ensures out.RejectLoanRequest? ==> out == RejectLoanRequest(old(pendingRejectReason)[chatId], Trim(raw))
      ensures out.MenuAction? ==> chatId !in old(pendingLink) && Trim(raw) in MENU_TO_ACTION && out.action == MENU_TO_ACTION[Trim(raw)]
      ensures out.Linked? <==> pendingLink != old(pendingLink)
      ensures out.Linked? ==>
        && chatId in old(pendingLink) && pendingLink == old(pendingLink) - {chatId}
        && |NormalizeNationalId(Str(Trim(raw)))| == 10
        && found == Got([out.member]) && patched
        && out.action == old(pendingLink)[chatId]
    {
      var text := Trim(raw);
      if text == "" || StartsWith(raw, "/") {
        return Ignored;
      }
      if chatId in pendingRejectReason {
        var id := pendingRejectReason[chatId];
        pendingRejectReason := pendingRejectReason - {chatId};
        return RejectLoanRequest(id, text);
      }
      if chatId !in pendingLink {
        if text in MENU_TO_ACTION {
          return MenuAction(MENU_TO_ACTION[text]);
        }
        return Ignored;
      }
      var nationalId := NormalizeNationalId(Str(text));
      if |nationalId| != 10 {
        return AskAgain;
      }
      if found.Failed? {
        return ServerError;
      }
      if |found.value| != 1 {
        return NoSuchMember;
      }
      if !patched {
        return ServerError;
      }
      var action := pendingLink[chatId];
      pendingLink := pendingLink - {chatId};
      assert found.value == [found.value[0]];
      out := Linked(found.value[0], action);
    }

    /**
     * `runMenuAction`: the balance and list actions ask an unlinked chat for
     * its national id and remember the action; the loan request is decided
     * by `LoanRequestDecision`. `member` is the chat's member lookup, and
     * `replied` whether the reply about an earlier request went out.
     */
    method RunMenuAction(chatId: int, action: string, member: Fetch<Option<Member>>, existing: Fetch<seq<JsVal>>, replied: bool)
      returns (out: ActionOutcome)
      requires Valid()
      modifies this
      ensures Valid()
      ensures pendingReceipt == old(pendingReceipt) && pendingRejectReason == old(pendingRejectReason)
      ensures out == AskedToLink <==> action in {"dep_balance", "loan_balance", "payment_list"} && member == Got(None)
      ensures pendingLink == if out == AskedToLink then old(pendingLink)[chatId := action] else old(pendingLink)
      ensures action == "loan_request" ==>
        out == Decided(LoanRequestDecision(if member.Got? then member.value else None, existing, replied))
    {
      if action == "loan_request" {
        var m := if member.Got? then member.value else None;
        return Decided(LoanRequestDecision(m, existing, replied));
      }
      if action in {"dep_balance", "loan_balance", "payment_list"} && member == Got(None) {
        pendingLink := pendingLink[chatId := action];
        return AskedToLink;
      }
      out := Done;
    }

    /**
     * An inline button: `loan_reject_{id}` makes the chat's next message
     * the reason, `payment_personal` makes its next photo a receipt of the
     * chat's member, and a bare action name runs that menu action.
     */
    method Button(chatId: int, data: string, member: Fetch<Option<Member>>) returns (out: ActionOutcome)
      requires Valid()
      modifies this
      ensures Valid()
      ensures pendingLink == old(pendingLink)
      ensures pendingRejectReason ==
        if out.AskedForReason? then old(pendingRejectReason)[chatId := out.id] else old(pendingRejectReason)
      ensures out.AskedForReason? <==>
        chatId != 0 && StartsWith(data, "loan_reject_") && |data| > |"loan_reject_"|
      ensures out.AskedForReason? ==> out.id == data[|"loan_reject_"|..]
      ensures out == AskedForReceipt <==> chatId != 0 && data == "payment_personal" && member.Got? && member.value.Some?
      ensures pendingReceipt ==
        if out == AskedForReceipt then old(pendingReceipt)[chatId := member.value.value.id] else old(pendingReceipt)
      ensures out.RunAction? ==> out.action in MENU_ACTIONS
    {
      if chatId == 0 {
        return Done;
      }
      if StartsWith(data, "loan_approve_") {
        assert data[5] == 'a';
        return Done;
      }
      if StartsWith(data, "loan_reject_") {
        var id := data[|"loan_reject_"|..];
        if id == "" {
          return Done;
        }
        assert data[5] == 'r';
        pendingRejectReason := pendingRejectReason[chatId := id];
        return AskedForReason(id);
      }
      if data == "payment_personal" {
        if member.Got? && member.value.Some? {
          pendingReceipt := pendingReceipt[chatId := member.value.value.id];
          return AskedForReceipt;
        }
        return Done;
      }
      if data in MENU_ACTIONS {
        return RunAction(data);
      }
      out := Done;
    }
  }
}
