/**
 * The quota request's outcome mapping (`fetchQuota`, src/index.ts:45-80)
 * and the two report messages (src/index.ts:82-84 and 121).
 *
 * The request itself, its 5000 ms abort timer and the JSON decoding are
 * the outside world: their result reaches the model as a `FetchOutcome`.
 * The percentage texts are what `toFixed(1)` gives for the response's
 * `used` fraction, and the rendered reset time is what
 * `new Date(reset).toLocaleTimeString(...)` gives; both come with the
 * outcome as opaque texts.
 */
module Quota {
  import opened Wrappers

  datatype QuotaInfo = QuotaInfo(remaining: string, used: string, reset: string, resetLocal: string)

  /** What the locale time formatting gives for a reset text: a time, or the text of an invalid date. */
  datatype TimeRendering = Rendered(text: string) | InvalidDate

  /** A decoded successful response, with the host's number and time formatting applied. */
  datatype QuotaData = QuotaData(remaining: string, used: string, reset: string, resetTime: TimeRendering)

  /**
   * How one request ends: it threw (network failure, abort on timeout, a
   * body that is not JSON or is JSON `null`), the status was not ok, or the
   * body was decoded.
   */
  datatype FetchOutcome = Threw | NotOk | Ok(data: QuotaData)

  /** What `toLocaleTimeString` returns for a `Date` that could not be parsed. */
  const InvalidDateText: string := "Invalid Date"

  /** `resetLocal`: the raw text when it is empty (falsy), otherwise its rendering. */
  function LocalResetTime(reset: string, rendering: TimeRendering): (r: string)
    ensures reset == "" ==> r == ""
    ensures reset != "" && rendering.Rendered? ==> r == rendering.text
    ensures reset != "" && rendering.InvalidDate? ==> r == InvalidDateText
  {
    if reset == "" then
      reset
    else
      match rendering
      case Rendered(t) => t
      case InvalidDate => InvalidDateText
  }

  /** `fetchQuota`: null on any failure, never an exception; otherwise the normalised quota. */
  function FetchQuota(outcome: FetchOutcome): (r: Option<QuotaInfo>)
    ensures r.Some? <==> outcome.Ok?
    ensures r.Some? ==>
      && r.value.remaining == outcome.data.remaining
      && r.value.used == outcome.data.used
      && r.value.reset == outcome.data.reset
    ensures r.Some? ==> r.value.resetLocal == LocalResetTime(outcome.data.reset, outcome.data.resetTime)
    ensures r.Some? && r.value.reset == "" ==> r.value.resetLocal == r.value.reset
  {
    match outcome
    case Threw => None
    case NotOk => None
    case Ok(d) => Some(QuotaInfo(d.remaining, d.used, d.reset, LocalResetTime(d.reset, d.resetTime)))
  }

  /**
   * An unparseable, non-empty reset text is reported as "Invalid Date", not
   * as the raw text: the `catch` around the date formatting never runs for it.
   */
  lemma NoRawFallback(d: QuotaData)
    requires d.reset != "" && d.resetTime.InvalidDate?
    ensures FetchQuota(Ok(d)).value.resetLocal == InvalidDateText
  {
  }

  /** The battery emoji that opens both messages. */
  const Battery: string := "\U{1F50B}"

  const FullLead: string := Battery + " Firmware.ai: "

  const IdleLead: string := Battery + " "

  /** `formatQuotaMessage`: the report logged at startup. */
  function FormatQuotaMessage(q: QuotaInfo): (r: string)
    ensures FullLead <= r
    ensures |r| >= |q.resetLocal| && r[|r| - |q.resetLocal|..] == q.resetLocal
  {
    assert FullLead + q.remaining + UsedLead + q.used + ResetLead + q.resetLocal
      == (FullLead + (q.remaining + UsedLead + q.used + ResetLead)) + q.resetLocal;
    FullLead + q.remaining + UsedLead + q.used + ResetLead + q.resetLocal
  }

  /** The abbreviated report logged on an idle event: the remaining percentage only. */
  function IdleMessage(q: QuotaInfo): (r: string)
    ensures IdleLead <= r
    ensures |r| >= |IdleSuffix| && r[|r| - |IdleSuffix|..] == IdleSuffix
  {
    IdleLead + q.remaining + IdleSuffix
  }

  /** The text that closes the abbreviated report. */
  const IdleSuffix: string := "% remaining"

  /** The text of s before its first c (all of s when c does not occur). */
  function TakeUntil(s: string, c: char): (r: string)
    ensures r <= s
    ensures c !in r
    ensures |r| < |s| ==> s[|r|] == c
  {
    if s == [] || s[0] == c then [] else [s[0]] + TakeUntil(s[1..], c)
  }

  /** A figure written by `toFixed` holds no percent sign. */
  predicate IsFigure(t: string) {
    '%' !in t
  }

  /** The percentage a report states first, read back from the text after its lead. */
  function FirstFigure(msg: string, lead: string): (r: Option<string>)
    ensures r.Some? ==> lead <= msg && IsFigure(r.value)
  {
    if lead <= msg then Some(TakeUntil(msg[|lead|..], '%')) else None
  }

  lemma {:induction false} TakeUntilAppend(a: string, c: char, b: string)
    requires c !in a
    ensures TakeUntil(a + [c] + b, c) == a
  {
    if a != [] {
      assert (a + [c] + b)[1..] == a[1..] + [c] + b;
      TakeUntilAppend(a[1..], c, b);
    }
  }

  /** A figure placed right after a lead and before a percent sign is read back whole. */
  lemma FigureAfterLead(lead: string, figure: string, rest: string)
    requires IsFigure(figure) && rest != [] && rest[0] == '%'
    ensures FirstFigure(lead + figure + rest, lead) == Some(figure)
  {
    var msg := lead + figure + rest;
    assert lead <= msg;
    assert msg[|lead|..] == figure + ['%'] + rest[1..];
    TakeUntilAppend(figure, '%', rest[1..]);
  }

  /**
   * Both reports can be read back: the full report and the idle report of
   * the same quota state the same remaining percentage, the one the
   * request returned.
   */
  lemma ReportsAgreeOnRemaining(q: QuotaInfo)
    requires IsFigure(q.remaining)
    ensures FirstFigure(FormatQuotaMessage(q), FullLead) == Some(q.remaining)
    ensures FirstFigure(IdleMessage(q), IdleLead) == Some(q.remaining)
  {
    var fullRest := UsedLead + q.used + ResetLead + q.resetLocal;
    assert FormatQuotaMessage(q) == FullLead + q.remaining + fullRest;
    FigureAfterLead(FullLead, q.remaining, fullRest);
    FigureAfterLead(IdleLead, q.remaining, IdleSuffix);
  }

  /** The texts that stand between the fields of the full report. */
  const UsedLead: string := "% remaining ("

  const ResetLead: string := "% used) | Resets: "

  /**
   * The full report carries all three fields: the remaining figure after
   * the lead, the used figure after "% remaining (", and the local reset
   * time at the very end.
   */
  lemma FullReportFields(q: QuotaInfo)
    requires IsFigure(q.remaining) && IsFigure(q.used)
    ensures var msg := FormatQuotaMessage(q);
      && FirstFigure(msg, FullLead) == Some(q.remaining)
      && FirstFigure(msg, FullLead + q.remaining + UsedLead) == Some(q.used)
      && msg[|msg| - |q.resetLocal|..] == q.resetLocal
  {
    ReportsAgreeOnRemaining(q);
    var msg := FormatQuotaMessage(q);
    var usedLead := FullLead + q.remaining + UsedLead;
    var tail := ResetLead + q.resetLocal;
    assert msg == usedLead + q.used + tail;
    FigureAfterLead(usedLead, q.used, tail);
    assert msg == (usedLead + q.used + ResetLead) + q.resetLocal;
  }
}
