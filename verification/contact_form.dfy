/** The page's use of the hook: `useForm({ name: '', email: '', message: '' },
    validateContactForm)`, and what the combination guarantees. */
module ContactForm {
  import opened JsText
  import opened EmailPattern
  import opened Form
  import opened ContactValidation
  import opened UseForm

  const Contact := Hook(EmptyForm, Validate)

  /** Pressing submit starts the pending phase exactly when the values are
      acceptable; otherwise the values, flag and status stay as they were and
      the errors become the validator's. */
  lemma PressStartsIffAcceptable(st: State)
    requires !st.isSubmitting
    ensures SubmitStart(Contact, st).isSubmitting <==> Acceptable(st.formData)
    ensures !Acceptable(st.formData) ==>
      SubmitStart(Contact, st) == st.(errors := Lift(Validate(st.formData)))
  {
    ValidateEmptyIff(st.formData);
  }

  /** Every error entry is `null` or one of its own field's messages. */
  ghost predicate KnownMessages(st: State)
  {
    forall f :: f in st.errors && st.errors[f].Some? ==> st.errors[f].value in Messages(f)
  }

  lemma ApplyKeepsKnownMessages(st: State, e: Event)
    requires KnownMessages(st)
    ensures KnownMessages(Apply(Contact, st, e))
  {
    if e.Pressed? && Enabled(st, e) {
      forall f | f in Validate(st.formData) {
        ValidateEntries(st.formData, f);
      }
    }
  }

  lemma {:induction false} RunKeepsKnownMessages(st: State, es: seq<Event>)
    requires KnownMessages(st)
    ensures KnownMessages(Run(Contact, st, es))
    decreases |es|
  {
    if es != [] {
      ApplyKeepsKnownMessages(st, es[0]);
      RunKeepsKnownMessages(Apply(Contact, st, es[0]), es[1..]);
    }
  }

  /** On every reachable page state, each error shown is one of the five fixed
      messages, on the field it belongs to. */
  lemma ReachableKnownMessages(es: seq<Event>)
    ensures KnownMessages(Run(Contact, Init(Contact), es))
  {
    RunKeepsKnownMessages(Init(Contact), es);
  }

  /** With every field empty, each field gets its "required" message. */
  lemma ValidateAllEmpty(d: FormData)
    requires d.name == [] && d.email == [] && d.message == []
    ensures Validate(d) == map[Name := NameRequired, Email := EmailRequired,
                               Message := MessageRequired]
  {
    assert Check(d, Name) == Some(NameRequired);
    assert Check(d, Email) == Some(EmailRequired);
    assert Check(d, Message) == Some(MessageRequired);
  }

  /** With the name and message empty and an e-mail without '@', the e-mail is
      invalid and the other two are required. */
  lemma ValidateEmailWithoutAt(d: FormData)
    requires d.name == [] && d.message == [] && d.email != []
    requires forall k :: 0 <= k < |d.email| ==> d.email[k] != At
    ensures Validate(d) == map[Name := NameRequired, Email := EmailInvalid,
                               Message := MessageRequired]
  {
    NoAtNoMatch(d.email);
    assert Check(d, Name) == Some(NameRequired);
    assert Check(d, Email) == Some(EmailInvalid);
    assert Check(d, Message) == Some(MessageRequired);
  }

  /** Pressing submit when the validator fails all three fields shows all
      three messages and does not start sending. */
  lemma PressFailingAllThree(st: State, a: string, b: string, c: string)
    requires !st.isSubmitting
    requires Validate(st.formData) == map[Name := a, Email := b, Message := c]
    ensures Apply(Contact, st, Pressed).errors == map[Name := Some(a), Email := Some(b), Message := Some(c)]
    ensures !Apply(Contact, st, Pressed).isSubmitting
  {
    var v := Validate(st.formData);
    assert Lift(v).Keys == v.Keys;
  }

  /** Clearing the name and submitting shows "Name is required." (and, the
      other fields being empty too, their "required" messages). */
  lemma ScenarioEmptyName()
    ensures var st := Apply(Contact, Apply(Contact, Init(Contact), Typed(Name, [])), Pressed);
      && st.errors == map[Name := Some(NameRequired), Email := Some(EmailRequired),
                          Message := Some(MessageRequired)]
      && !st.isSubmitting
  {
    var s1 := Apply(Contact, Init(Contact), Typed(Name, []));
    assert s1 == State(EmptyForm, map[], false, Idle);
    ValidateAllEmpty(EmptyForm);
    PressFailingAllThree(s1, NameRequired, EmailRequired, MessageRequired);
  }

  /** Typing "bad" as the e-mail and submitting shows "Email address is
      invalid." (next to the "required" messages of the empty fields). */
  lemma ScenarioBadEmail()
    ensures var st := Apply(Contact, Apply(Contact, Init(Contact), Typed(Email, FromBmp("bad"))), Pressed);
      && st.errors == map[Name := Some(NameRequired), Email := Some(EmailInvalid),
                          Message := Some(MessageRequired)]
      && !st.isSubmitting
  {
    var d := FormData([], FromBmp("bad"), []);
    var s1 := Apply(Contact, Init(Contact), Typed(Email, d.email));
    assert s1 == State(d, map[], false, Idle);
    ValidateEmailWithoutAt(d);
    PressFailingAllThree(s1, NameRequired, EmailInvalid, MessageRequired);
  }

  /** Filling in acceptable values, submitting and letting the delay end
      gives 'success' and empty fields again. */
  lemma FillSubmitSucceeds(d: FormData)
    requires Acceptable(d)
    ensures var s1 := Apply(Contact, Init(Contact), Typed(Name, d.name));
      var s2 := Apply(Contact, s1, Typed(Email, d.email));
      var filled := Apply(Contact, s2, Typed(Message, d.message));
      var st := Apply(Contact, Apply(Contact, filled, Pressed), Settled(Resolved));
      && st.submitStatus == Success
      && st.formData == EmptyForm
      && !st.isSubmitting
      && st.errors == map[]
  {
    var s1 := Apply(Contact, Init(Contact), Typed(Name, d.name));
    var s2 := Apply(Contact, s1, Typed(Email, d.email));
    var s3 := Apply(Contact, s2, Typed(Message, d.message));
    assert s1 == State(FormData(d.name, [], []), map[], false, Idle);
    assert s2 == State(FormData(d.name, d.email, []), map[], false, Idle);
    assert s3 == State(d, map[], false, Idle);
    ValidateEmptyIff(d);
    var s4 := Apply(Contact, s3, Pressed);
    assert s4 == State(d, map[], true, Idle);
    assert Apply(Contact, s4, Settled(Resolved)) == State(EmptyForm, map[], false, Success);
  }

  /** "Ana", "ana@mail.com" and "Hello there!" are acceptable values. */
  lemma ScenarioValidSubmission()
    ensures Acceptable(FormData(FromBmp("Ana"), FromBmp("ana@mail.com"), FromBmp("Hello there!")))
  {
    var name, email, message := FromBmp("Ana"), FromBmp("ana@mail.com"), FromBmp("Hello there!");
    assert MatchAt(email, 3, 8);
    assert !IsWhitespace(name[0]);
    assert !IsWhitespace(message[0]);
  }
}
