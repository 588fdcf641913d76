/** The contact form's record of field values, shared by the validator and the
    form hook. */
module Form {
  import opened JsText

  /** A value or JavaScript's `null`. */
  datatype Option<+T> = None | Some(value: T)

  /** The three inputs of the contact form, named by their `name` attribute. */
  datatype Field = Name | Email | Message

  /** `{ name, email, message }`. */
  datatype FormData = FormData(name: JsString, email: JsString, message: JsString)
  {
    /** `data[f]`. */
    function Get(f: Field): JsString
    {
      match f
      case Name => name
      case Email => email
      case Message => message
    }

    /** `{ ...data, [f]: v }`: field `f` becomes `v`, the others keep their values. */
    function Set(f: Field, v: JsString): (r: FormData)
      ensures r.Get(f) == v
      ensures forall g :: g != f ==> r.Get(g) == Get(g)
    {
      match f
      case Name => this.(name := v)
      case Email => this.(email := v)
      case Message => this.(message := v)
    }
  }

  /** `{ name: '', email: '', message: '' }`, the form's initial state. */
  const EmptyForm := FormData([], [], [])
}
