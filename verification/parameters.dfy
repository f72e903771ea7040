/**
 The fixed set of configuration parameters the package recognises, and the
 strict (`in_array(..., true)`) name check that maps a caller's string onto it.
 */
module ConfigParameters {
  import opened Optional

  datatype Parameter =
    | Salt
    | Length
    | Alphabet
    | PrefixLength
    | PrefixCase
    | Separator
    | Generators  // the per-class override table itself

  /** The configuration key of each parameter under `hashids.` */
  function Name(p: Parameter): string {
    match p
    case Salt => "salt"
    case Length => "length"
    case Alphabet => "alphabet"
    case PrefixLength => "prefix_length"
    case PrefixCase => "prefix_case"
    case Separator => "separator"
    case Generators => "generators"
  }

  /** The recognised names, in the order the source lists them. */
  const RecognisedNames: seq<string> :=
    ["salt", "length", "alphabet", "prefix_length", "prefix_case", "separator", "generators"]

  /** The parameter a name denotes, or `None` for any other string. The
      comparison is PHP's strict `in_array`: exact equality with each
      recognised name in turn, no case folding, no trimming. */
  function Parse(name: string): (r: Option<Parameter>)
    ensures r.Some? <==> name in RecognisedNames
    ensures r.Some? ==> Name(r.value) == name
  {
    if name == "salt" then Some(Salt)
    else if name == "length" then Some(Length)
    else if name == "alphabet" then Some(Alphabet)
    else if name == "prefix_length" then Some(PrefixLength)
    else if name == "prefix_case" then Some(PrefixCase)
    else if name == "separator" then Some(Separator)
    else if name == "generators" then Some(Generators)
    else None
  }

  /** Every parameter's own name is recognised and parses back to it. */
  lemma ParseName(p: Parameter)
    ensures Name(p) in RecognisedNames
    ensures Parse(Name(p)) == Some(p)
  {
  }

  /** Distinct parameters have distinct names. */
  lemma NameInjective(p: Parameter, q: Parameter)
    requires Name(p) == Name(q)
    ensures p == q
  {
  }
}
