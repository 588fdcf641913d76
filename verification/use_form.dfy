/** The `useForm` hook: the state of one form (values, per-field errors, a
    submitting flag and a submission status) and its two handlers, written as
    pure transitions. The `await` inside the submit handler splits the submit
    into an atomic start step and a later settle step. */
module UseForm {
  import opened JsText
  import opened Form

  /** The `errors` object: a field maps to a message or to `null` (`None`);
      a field that is absent reads as `undefined`. Messages stay Dafny
      `string`s rather than `JsString`s: they are only ever the five fixed
      ASCII messages, which are never measured, trimmed or matched, so only
      their emptiness matters. */
  type ErrorMap = map<Field, Option<string>>

  /** `submitStatus`: 'idle', 'success' or 'error'. */
  datatype Status = Idle | Success | Error

  datatype State = State(
    formData: FormData,
    errors: ErrorMap,
    isSubmitting: bool,
    submitStatus: Status)

  /** The arguments of `useForm`: the initial values and the validator. */
  datatype Hook = Hook(initial: FormData, validate: FormData -> map<Field, string>)

  /** How the awaited promise ends. The simulated call resolves after a fixed
      delay and never rejects, so `Rejected` cannot happen in the page as
      written; it is kept to model the handler's catch branch. */
  datatype Outcome = Resolved | Rejected

  /** `errors[f]` is truthy. An absent entry (`undefined`), `null` and the
      empty string are falsy; any non-empty message is truthy. */
  function Shows(errors: ErrorMap, f: Field): (b: bool)
    ensures f !in errors ==> !b
    ensures f in errors && errors[f] == None ==> !b
    ensures f in errors && errors[f] == Some([]) ==> !b
    ensures f in errors && errors[f].Some? && errors[f].value != [] ==> b
  {
    f in errors && errors[f].Some? && errors[f].value != []
  }

  /** A validation result as an `errors` object. */
  function Lift(v: map<Field, string>): (e: ErrorMap)
    ensures e.Keys == v.Keys
    ensures forall f :: f in v ==> e[f] == Some(v[f])
  {
    map f | f in v :: Some(v[f])
  }

  /** The state on first render: the initial values, the empty `errors`
      object, not submitting, 'idle'. */
  function Init(h: Hook): (st: State)
    ensures st.formData == h.initial && !st.isSubmitting && st.submitStatus == Idle
    ensures forall f :: f !in st.errors
  {
    State(h.initial, map[], false, Idle)
  }

  /** `handleChange` for input `f` receiving `v`: the value is stored and a
      shown error on `f` is set to `null`; nothing is validated, so the
      validator is not an argument. */
  function HandleChange(st: State, f: Field, v: JsString): (r: State)
    ensures r.formData.Get(f) == v
    ensures forall g :: g != f ==> r.formData.Get(g) == st.formData.Get(g)
    ensures r.errors.Keys == st.errors.Keys
    ensures Shows(st.errors, f) ==> r.errors[f] == None
    ensures !Shows(st.errors, f) ==> r.errors == st.errors
    ensures forall g :: g != f && g in st.errors ==> r.errors[g] == st.errors[g]
    ensures !Shows(r.errors, f)
    ensures r.isSubmitting == st.isSubmitting && r.submitStatus == st.submitStatus
  {
    var errors := if Shows(st.errors, f) then st.errors[f := None] else st.errors;
    st.(formData := st.formData.Set(f, v), errors := errors)
  }

  /** `handleSubmit` up to its `await`: the errors are replaced by a fresh
      validation, and only an empty result starts the pending phase. */
  function SubmitStart(h: Hook, st: State): (r: State)
    ensures r.formData == st.formData
    ensures r.errors.Keys == h.validate(st.formData).Keys
    ensures forall f :: f in r.errors ==> r.errors[f] == Some(h.validate(st.formData)[f])
    ensures h.validate(st.formData) == map[] ==> r.isSubmitting && r.submitStatus == Idle
    ensures h.validate(st.formData) != map[] ==>
      r.isSubmitting == st.isSubmitting && r.submitStatus == st.submitStatus
  {
    var validationErrors := h.validate(st.formData);
    var st' := st.(errors := Lift(validationErrors));
    if |validationErrors| == 0 then
      st'.(isSubmitting := true, submitStatus := Idle)
    else
      st'
  }

  /** `handleSubmit` after its `await`: success resets the values to the
      initial ones, failure keeps them; both end the pending phase. */
  function Settle(h: Hook, st: State, o: Outcome): (r: State)
    ensures !r.isSubmitting
    ensures r.errors == st.errors
    ensures r.submitStatus == Success <==> o == Resolved
    ensures r.submitStatus == Error <==> o == Rejected
    ensures o == Resolved ==> r.formData == h.initial
    ensures o == Rejected ==> r.formData == st.formData
  {
    match o
    case Resolved => st.(submitStatus := Success, formData := h.initial, isSubmitting := false)
    case Rejected => st.(submitStatus := Error, isSubmitting := false)
  }

  /** Two edits of different inputs commute. */
  lemma ChangesCommute(st: State, f: Field, v: JsString, g: Field, w: JsString)
    requires f != g
    ensures HandleChange(HandleChange(st, f, v), g, w) == HandleChange(HandleChange(st, g, w), f, v)
  {
  }

  /** A second edit of the same input overwrites the first. */
  lemma ChangeOverwrites(st: State, f: Field, v: JsString, w: JsString)
    ensures HandleChange(HandleChange(st, f, v), f, w) == HandleChange(st, f, w)
  {
  }

  /** An edit never makes an error appear. */
  lemma ChangeHidesOnly(st: State, f: Field, v: JsString, g: Field)
    ensures Shows(HandleChange(st, f, v).errors, g) ==> Shows(st.errors, g) && g != f
  {
  }

  /** Pressing submit again at once leads to the same state. */
  lemma SubmitStartIdempotent(h: Hook, st: State)
    ensures SubmitStart(h, SubmitStart(h, st)) == SubmitStart(h, st)
  {
  }

  /** A submission of valid values ends, once settled, not submitting, with no
      errors shown, and in exactly one of two states: success with the initial
      values back, or error with the submitted values kept. */
  lemma SubmitThenSettle(h: Hook, st: State, o: Outcome)
    requires h.validate(st.formData) == map[]
    ensures var r := Settle(h, SubmitStart(h, st), o);
      && !r.isSubmitting
      && r.errors == map[]
      && ((r.submitStatus == Success && r.formData == h.initial)
          || (r.submitStatus == Error && r.formData == st.formData))
  {
  }

  /** What the user can do, and the timer. */
  datatype Event = Typed(field: Field, value: JsString) | Pressed | Settled(outcome: Outcome)

  /** The submit button is disabled while submitting, and only a pending
      submission can settle: typing is always possible, and in every state
      exactly one of pressing and settling is. */
  function Enabled(st: State, e: Event): (b: bool)
    ensures e.Typed? ==> b
    ensures !e.Typed? ==> (b <==> (e.Pressed? != st.isSubmitting))
  {
    match e
    case Typed(_, _) => true
    case Pressed => !st.isSubmitting
    case Settled(_) => st.isSubmitting
  }

  /** One event; a disabled one has no effect. Only typing and a successful
      settle change the values, only a press with valid values starts the
      pending phase, only a settle ends it, and typing never touches the flag
      or the status. */
  function Apply(h: Hook, st: State, e: Event): (r: State)
    ensures !Enabled(st, e) ==> r == st
    ensures r.formData != st.formData ==> e.Typed? || e == Settled(Resolved)
    ensures !st.isSubmitting && r.isSubmitting ==> e.Pressed? && h.validate(st.formData) == map[]
    ensures st.isSubmitting && !r.isSubmitting ==> e.Settled?
    ensures e.Typed? ==> r.isSubmitting == st.isSubmitting && r.submitStatus == st.submitStatus
  {
    if !Enabled(st, e) then st
    else match e
      case Typed(f, v) => HandleChange(st, f, v)
      case Pressed => SubmitStart(h, st)
      case Settled(o) => Settle(h, st, o)
  }

  /** The events in order, from `st`. A session of typing alone never
      submits and never changes the status, and its errors keep their keys. */
  function Run(h: Hook, st: State, es: seq<Event>): (r: State)
    ensures (forall i :: 0 <= i < |es| ==> es[i].Typed?) ==>
      r.isSubmitting == st.isSubmitting && r.submitStatus == st.submitStatus
      && r.errors.Keys == st.errors.Keys
    decreases |es|
  {
    if es == [] then st else Run(h, Apply(h, st, es[0]), es[1..])
  }

  /** A session split in two runs as the first part followed by the second. */
  lemma {:induction false} RunAppend(h: Hook, st: State, xs: seq<Event>, ys: seq<Event>)
    ensures Run(h, st, xs + ys) == Run(h, Run(h, st, xs), ys)
    decreases |xs|
  {
    if xs != [] {
      assert (xs + ys)[0] == xs[0];
      assert (xs + ys)[1..] == xs[1..] + ys;
      RunAppend(h, Apply(h, st, xs[0]), xs[1..], ys);
    } else {
      assert xs + ys == ys;
    }
  }

  /** While a submission is pending, the status is 'idle' and no field has
      any error entry. */
  ghost predicate PendingClean(st: State)
  {
    st.isSubmitting ==> st.submitStatus == Idle && st.errors == map[]
  }

  lemma ApplyKeepsPendingClean(h: Hook, st: State, e: Event)
    requires PendingClean(st)
    ensures PendingClean(Apply(h, st, e))
  {
  }

  lemma {:induction false} RunKeepsPendingClean(h: Hook, st: State, es: seq<Event>)
    requires PendingClean(st)
    ensures PendingClean(Run(h, st, es))
    decreases |es|
  {
    if es != [] {
      ApplyKeepsPendingClean(h, st, es[0]);
      RunKeepsPendingClean(h, Apply(h, st, es[0]), es[1..]);
    }
  }

  /** Every state the page can reach is clean while pending. */
  lemma ReachablePendingClean(h: Hook, es: seq<Event>)
    ensures PendingClean(Run(h, Init(h), es))
  {
    RunKeepsPendingClean(h, Init(h), es);
  }
}
