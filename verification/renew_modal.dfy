/** The renewal dialog (web/src/components/RenewModal.tsx): the preview of
    the new expiry, the request it sends, the days field and the submit
    button. Client instants are milliseconds since the epoch. */
module RenewModal {
  import opened Optional
  import opened JsText
  import opened Types
  import opened ResourceModel
  import opened ResourceHandlers

  const MillisPerSecond: int := 1000
  const MillisPerDay: int := 24 * 60 * 60 * 1000
  const NanosPerMilli: int := 1_000_000

  datatype RenewMode = ByDays | ByDate

  /** The dialog's state: the mode, the days field, and the text of the
      date field (empty until a date is entered). */
  datatype RenewForm = RenewForm(mode: RenewMode, days: int, expireAt: string)

  /** The state the dialog opens with. */
  const InitialForm: RenewForm := RenewForm(ByDays, 30, "")

  /** The largest magnitude of a JavaScript time value: ECMAScript's
      TimeClip turns anything beyond it into an Invalid Date. */
  const MaxTimeValue: int := 8_640_000_000_000_000

  /** `new Date(t)` for an integral time value `t`. */
  function TimeClip(t: int): (r: Option<int>)
    ensures r.Some? <==> -MaxTimeValue <= t <= MaxTimeValue
    ensures r.Some? ==> r.value == t
  {
    if -MaxTimeValue <= t <= MaxTimeValue then Some(t) else None
  }

  /** `baseTime + days * 24 * 60 * 60 * 1000`: the later of now and the
      current expiry, moved on by the days. */
  function DaysPreviewMs(days: int, expireAtSec: int, nowMs: int): (v: int)
    ensures v >= nowMs + days * MillisPerDay
    ensures v >= expireAtSec * MillisPerSecond + days * MillisPerDay
    ensures v == nowMs + days * MillisPerDay || v == expireAtSec * MillisPerSecond + days * MillisPerDay
    ensures expireAtSec * MillisPerSecond < nowMs ==> v == nowMs + days * MillisPerDay
  {
    var base := if expireAtSec * MillisPerSecond < nowMs then nowMs else expireAtSec * MillisPerSecond;
    base + days * MillisPerDay
  }

  /** `predictedExpireDate` as a time value, for a resource expiring at
      `expireAtSec`. `dateMs` stands for `new Date(text).getTime()` (`None`
      is an invalid date) and `nowMs` for `Date.now()`. In days mode the
      preview is an Invalid Date exactly when the sum leaves the range of
      time values. */
  function PredictedExpiry(form: RenewForm, expireAtSec: int, nowMs: int, dateMs: string -> Option<int>): (p: Option<int>)
    ensures form.mode == ByDate && form.expireAt != "" ==> p == dateMs(form.expireAt)
    ensures !(form.mode == ByDate && form.expireAt != "") ==>
              (p.Some? <==> -MaxTimeValue <= DaysPreviewMs(form.days, expireAtSec, nowMs) <= MaxTimeValue)
    ensures !(form.mode == ByDate && form.expireAt != "") && p.Some? ==>
              p.value == DaysPreviewMs(form.days, expireAtSec, nowMs)
  {
    if form.mode == ByDate && form.expireAt != "" then dateMs(form.expireAt)
    else TimeClip(DaysPreviewMs(form.days, expireAtSec, nowMs))
  }

  /** With a non-negative number of days the preview is neither in the
      past nor before the current expiry. */
  lemma PreviewNeverEarlier(form: RenewForm, expireAtSec: int, nowMs: int, dateMs: string -> Option<int>)
    requires form.mode == ByDays && form.days >= 0
    ensures DaysPreviewMs(form.days, expireAtSec, nowMs) >= nowMs
    ensures DaysPreviewMs(form.days, expireAtSec, nowMs) >= expireAtSec * MillisPerSecond
    ensures PredictedExpiry(form, expireAtSec, nowMs, dateMs).Some? ==>
              PredictedExpiry(form, expireAtSec, nowMs, dateMs).value >= nowMs &&
              PredictedExpiry(form, expireAtSec, nowMs, dateMs).value >= expireAtSec * MillisPerSecond
  {
    assert form.days * MillisPerDay >= 0;
  }

  /** More days never preview an earlier expiry. */
  lemma PreviewMonotoneInDays(form: RenewForm, more: int, expireAtSec: int, nowMs: int, dateMs: string -> Option<int>)
    requires form.mode == ByDays && form.days <= more
    ensures DaysPreviewMs(form.days, expireAtSec, nowMs) <= DaysPreviewMs(more, expireAtSec, nowMs)
    ensures PredictedExpiry(form, expireAtSec, nowMs, dateMs).Some? &&
            PredictedExpiry(form.(days := more), expireAtSec, nowMs, dateMs).Some? ==>
              PredictedExpiry(form, expireAtSec, nowMs, dateMs).value
              <= PredictedExpiry(form.(days := more), expireAtSec, nowMs, dateMs).value
  {
    assert form.days * MillisPerDay <= more * MillisPerDay;
  }

  /** In date mode with a date entered, neither the days field, the current
      expiry nor the clock affects the preview. */
  lemma DateModeIgnoresDays(form: RenewForm, days: int, e1: int, e2: int, n1: int, n2: int, dateMs: string -> Option<int>)
    requires form.mode == ByDate && form.expireAt != ""
    ensures PredictedExpiry(form, e1, n1, dateMs) == PredictedExpiry(form.(days := days), e2, n2, dateMs)
  {
  }

  /** The body `handleSubmit` sends: `{days}` in days mode, and in date
      mode `{expire_at}` in whole seconds, rounded down; an invalid date
      gives `NaN`, which is sent as `null`. */
  function RenewPayload(form: RenewForm, dateMs: string -> Option<int>): (req: RenewRequest)
    ensures form.mode == ByDays ==> req.days == Some(form.days) && req.expireAt.None?
    ensures form.mode == ByDate ==> req.days.None? && req.expireAt.Some? == dateMs(form.expireAt).Some?
    ensures form.mode == ByDate && req.expireAt.Some? ==>
              req.expireAt.value * MillisPerSecond <= dateMs(form.expireAt).value < (req.expireAt.value + 1) * MillisPerSecond
  {
    if form.mode == ByDays then RenewRequest(Some(form.days), None)
    else
      match dateMs(form.expireAt)
      case None => RenewRequest(None, None)
      case Some(ms) => RenewRequest(None, Some(ms / MillisPerSecond))
  }

  /** A date the engine cannot read reaches the server as a request with
      neither field, which it refuses without touching the store. */
  lemma InvalidDateRefused(form: RenewForm, dateMs: string -> Option<int>, s: Store, id: nat, now: Instant, saveOk: bool)
    requires form.mode == ByDate && dateMs(form.expireAt).None?
    ensures RenewResource(s, id, Some(RenewPayload(form, dateMs)), now, saveOk).status == BadRequest
    ensures RenewResource(s, id, Some(RenewPayload(form, dateMs)), now, saveOk).store == s
  {
  }

  /** In days mode, with one clock, the server stores the previewed
      instant up to the fraction of a second the client never sees: the
      client knows the current expiry only as `Unix(current)`. When the
      current expiry is a whole second the two agree exactly. */
  lemma PreviewMatchesServer(form: RenewForm, current: Instant, nowMs: int, dateMs: string -> Option<int>)
    requires form.mode == ByDays
    ensures var stored := RenewedExpiry(current, RenewPayload(form, dateMs), nowMs * NanosPerMilli);
            var preview := DaysPreviewMs(form.days, Unix(current), nowMs) * NanosPerMilli;
            preview <= stored < preview + NanosPerSecond
    ensures current % NanosPerSecond == 0 ==>
              RenewedExpiry(current, RenewPayload(form, dateMs), nowMs * NanosPerMilli)
              == DaysPreviewMs(form.days, Unix(current), nowMs) * NanosPerMilli
  {
    var sec := Unix(current);
    var shift := form.days * NanosPerDay;
    assert shift == form.days * MillisPerDay * NanosPerMilli;
    var v := DaysPreviewMs(form.days, sec, nowMs);
    if current < nowMs * NanosPerMilli {
      assert sec * MillisPerSecond * NanosPerMilli <= current;
      assert sec * MillisPerSecond < nowMs;
      assert v * NanosPerMilli == nowMs * NanosPerMilli + shift;
    } else if sec * MillisPerSecond < nowMs {
      assert v * NanosPerMilli == nowMs * NanosPerMilli + shift;
      assert current < (sec + 1) * NanosPerSecond;
      assert sec * NanosPerSecond < nowMs * NanosPerMilli;
    } else {
      assert v == sec * MillisPerSecond + form.days * MillisPerDay;
      assert v * NanosPerMilli == sec * NanosPerSecond + shift;
    }
  }

  /** In date mode the server stores the previewed instant cut down to
      whole seconds. */
  lemma DatePreviewMatchesServer(form: RenewForm, expireAtSec: int, nowMs: int, dateMs: string -> Option<int>, now: Instant)
    requires form.mode == ByDate && form.expireAt != "" && dateMs(form.expireAt).Some?
    ensures var stored := RenewedExpiry(FromUnix(expireAtSec), RenewPayload(form, dateMs), now);
            var previewNs := PredictedExpiry(form, expireAtSec, nowMs, dateMs).value * NanosPerMilli;
            stored <= previewNs < stored + NanosPerSecond
  {
    var ms := dateMs(form.expireAt).value;
    var sec := ms / MillisPerSecond;
    assert sec * MillisPerSecond <= ms < (sec + 1) * MillisPerSecond;
    assert sec * MillisPerSecond * NanosPerMilli <= ms * NanosPerMilli;
    assert ms * NanosPerMilli < (sec + 1) * MillisPerSecond * NanosPerMilli;
  }

  /** The days field: `parseInt(value) || 0`. */
  function DaysInput(value: string): (days: int)
    ensures ParseInt(value).None? ==> days == 0
    ensures ParseInt(value).Some? ==> days == ParseInt(value).value
  {
    ParseInt(value).GetOr(0)
  }

  /** A number typed in decimal is read back as that number. */
  lemma DaysInputOfDecimal(n: int)
    ensures DaysInput(IntToDecimal(n)) == n
  {
    ParseIntOfDecimal(n);
  }

  /** The submit button: disabled while a request is in flight, and in date
      mode until a date is entered. */
  function SubmitDisabled(form: RenewForm, loading: bool): (disabled: bool)
    ensures !loading && form.mode == ByDays ==> !disabled
    ensures disabled <==> loading || (form.mode == ByDate && form.expireAt == "")
  {
    loading || (form.mode == ByDate && form.expireAt == "")
  }

  /** An enabled button submits a form whose preview is the one shown: the
      entered date in date mode, the days added to the later base in days
      mode. Its body carries `days` exactly in days mode, and the server does
      not refuse it as malformed unless a date the engine cannot read was
      entered. */
  lemma EnabledRenewSubmits(form: RenewForm, loading: bool, expireAtSec: int, nowMs: int, dateMs: string -> Option<int>,
                            s: Store, id: nat, now: Instant, saveOk: bool)
    requires !SubmitDisabled(form, loading)
    ensures !loading
    ensures form.mode == ByDate ==>
              PredictedExpiry(form, expireAtSec, nowMs, dateMs) == dateMs(form.expireAt) &&
              RenewPayload(form, dateMs).days.None?
    ensures form.mode == ByDays ==>
              PredictedExpiry(form, expireAtSec, nowMs, dateMs) == TimeClip(DaysPreviewMs(form.days, expireAtSec, nowMs)) &&
              RenewPayload(form, dateMs).days == Some(form.days)
    ensures form.mode == ByDays || dateMs(form.expireAt).Some? ==>
              RenewResource(s, id, Some(RenewPayload(form, dateMs)), now, saveOk).status != BadRequest
  {
  }
}
