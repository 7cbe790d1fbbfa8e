/**
 * The destinations of administrative notices, read from the stored Telegram
 * settings: the admin channel, the admin group, the admin chat and the
 * `TELEGRAM_ADMIN_GROUP_ID` environment variable, in that order, and the
 * main administrator chat `notifyTarget`.
 */
module Targets {
  import opened Js
  import opened Strings
  import opened Lists

  /** `vs.filter(Boolean).map((s) => String(s).trim()).filter(Boolean)`. */
  function TrimmedTargets(vs: seq<JsVal>): (r: seq<string>)
    ensures |r| <= |vs|
    ensures forall i :: 0 <= i < |r| ==> r[i] != ""
  {
    if vs == [] then []
    else
      var rest := TrimmedTargets(vs[1..]);
      var t := Trim(ToStr(vs[0]));
      if Truthy(vs[0]) && t != "" then [t] + rest else rest
  }

  /** A text is a target exactly when it is the trimmed text of a truthy candidate and is not blank. */
  lemma {:induction false} TrimmedTargetsMembers(vs: seq<JsVal>, s: string)
    ensures s in TrimmedTargets(vs) <==>
      s != "" && exists i :: 0 <= i < |vs| && Truthy(vs[i]) && Trim(ToStr(vs[i])) == s
  {
    if vs != [] {
      TrimmedTargetsMembers(vs[1..], s);
      if s in TrimmedTargets(vs[1..]) {
        var i :| 0 <= i < |vs[1..]| && Truthy(vs[1..][i]) && Trim(ToStr(vs[1..][i])) == s;
        assert vs[i + 1] == vs[1..][i];
      }
      if exists i :: 0 <= i < |vs| && Truthy(vs[i]) && Trim(ToStr(vs[i])) == s {
        var i :| 0 <= i < |vs| && Truthy(vs[i]) && Trim(ToStr(vs[i])) == s;
        if i > 0 {
          assert vs[1..][i - 1] == vs[i];
        }
      }
    }
  }

  function Candidates(ts: JsObject, env: JsVal): seq<JsVal> {
    [Get(ts, "adminChannelTarget"), Get(ts, "adminGroupTarget"), Get(ts, "adminTarget"), env]
  }

  /** `[...new Set(adminTargets)]`: the admin destinations, each once, in candidate order. */
  function AdminTargets(ts: JsObject, env: JsVal): (r: seq<string>)
    ensures NoDups(r) && |r| <= 4
    ensures forall i :: 0 <= i < |r| ==> r[i] != ""
  {
    Dedup(TrimmedTargets(Candidates(ts, env)))
  }

  /**
   * Every configured, non-blank destination is messaged, and nothing else:
   * a text is an admin target exactly when one of the four candidates is
   * truthy and trims to it.
   */
  lemma AdminTargetsMembers(ts: JsObject, env: JsVal, s: string)
    ensures s in AdminTargets(ts, env) <==>
      s != "" && exists i :: 0 <= i < 4 && Truthy(Candidates(ts, env)[i]) && Trim(ToStr(Candidates(ts, env)[i])) == s
  {
    var t := TrimmedTargets(Candidates(ts, env));
    TrimmedTargetsMembers(Candidates(ts, env), s);
    if s in AdminTargets(ts, env) {
      var i :| 0 <= i < |AdminTargets(ts, env)| && AdminTargets(ts, env)[i] == s;
      assert s in t;
    }
    if s in t {
      var i :| 0 <= i < |t| && t[i] == s;
      assert s in AdminTargets(ts, env);
    }
  }

  /** `(v || '').trim()`; `None` when `v` is truthy but not a string, where `.trim` throws. */
  function TrimmedOr(v: JsVal): (r: Option<string>)
    ensures r.None? <==> Truthy(v) && !v.Str?
    ensures r.Some? ==> r.value == Trim(TextOr(v))
  {
    if !Truthy(v) then Some("")
    else if v.Str? then Some(Trim(v.s))
    else None
  }
}
