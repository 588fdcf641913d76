/** `validateContactForm`: a pure map from the form's values to per-field
    error messages. A field is absent from the result when it is valid. */
module ContactValidation {
  import opened JsText
  import opened EmailPattern
  import opened Form

  const NameRequired: string := "Name is required."
  const EmailRequired: string := "Email is required."
  const EmailInvalid: string := "Email address is invalid."
  const MessageRequired: string := "Message is required."
  const MessageTooShort: string := "Message must be at least 10 characters long."

  /** Shortest accepted message, in UTF-16 code units, whitespace included. */
  const MinMessageLength := 10

  /** The check on `name`: required once trimmed. */
  function CheckName(name: JsString): (r: Option<string>)
    ensures r == Some(NameRequired) <==> Blank(name)
    ensures r == None <==> !Blank(name)
  {
    if Trim(name) == [] then Some(NameRequired) else None
  }

  /** The check on `email`: required as typed (no trimming), then it must
      contain a match of `\S+@\S+\.\S+`. */
  function CheckEmail(email: JsString): (r: Option<string>)
    ensures r == Some(EmailRequired) <==> email == []
    ensures r == Some(EmailInvalid) <==> email != [] && !EmailShape(email)
    ensures r == None <==> EmailShape(email)
  {
    if email == [] then Some(EmailRequired)
    else if !Test(email) then Some(EmailInvalid)
    else None
  }

  /** The check on `message`: required once trimmed, then at least ten code
      units long counting the untrimmed string. */
  function CheckMessage(message: JsString): (r: Option<string>)
    ensures r == Some(MessageRequired) <==> Blank(message)
    ensures r == Some(MessageTooShort) <==> !Blank(message) && |message| < MinMessageLength
    ensures r == None <==> !Blank(message) && |message| >= MinMessageLength
  {
    if Trim(message) == [] then Some(MessageRequired)
    else if |message| < MinMessageLength then Some(MessageTooShort)
    else None
  }

  function Check(d: FormData, f: Field): Option<string>
  {
    match f
    case Name => CheckName(d.name)
    case Email => CheckEmail(d.email)
    case Message => CheckMessage(d.message)
  }

  /** `validateContactForm(data)`. */
  function Validate(d: FormData): (r: map<Field, string>)
    ensures Name in r <==> Blank(d.name)
    ensures Name in r ==> r[Name] == NameRequired
    ensures Email in r <==> !EmailShape(d.email)
    ensures Email in r ==> (r[Email] == EmailRequired <==> d.email == [])
    ensures Email in r ==> (r[Email] == EmailInvalid <==> d.email != [])
    ensures Message in r <==> Blank(d.message) || |d.message| < MinMessageLength
    ensures Message in r ==> (r[Message] == MessageRequired <==> Blank(d.message))
    ensures Message in r ==> (r[Message] == MessageTooShort <==> !Blank(d.message))
  {
    map f | f in {Name, Email, Message} && Check(d, f).Some? :: Check(d, f).value
  }

  /** Everything the form asks of its values, stated without the checks. */
  ghost predicate Acceptable(d: FormData)
  {
    && !Blank(d.name)
    && EmailShape(d.email)
    && !Blank(d.message)
    && |d.message| >= MinMessageLength
  }

  /** The result is empty exactly when all three field checks pass. */
  lemma ValidateEmptyIff(d: FormData)
    ensures Validate(d) == map[] <==> Acceptable(d)
  {
    if !Acceptable(d) {
      assert Name in Validate(d) || Email in Validate(d) || Message in Validate(d);
    }
  }

  /** The messages the validator can give for each field. */
  function Messages(f: Field): set<string>
  {
    match f
    case Name => {NameRequired}
    case Email => {EmailRequired, EmailInvalid}
    case Message => {MessageRequired, MessageTooShort}
  }

  /** Each entry of the result is the field's own check, and its message is
      one of that field's messages. */
  lemma ValidateEntries(d: FormData, f: Field)
    ensures f in Validate(d) <==> Check(d, f).Some?
    ensures f in Validate(d) ==> Some(Validate(d)[f]) == Check(d, f)
    ensures f in Validate(d) ==> Validate(d)[f] in Messages(f) && Validate(d)[f] != []
  {
  }
}
