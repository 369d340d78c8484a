/** `MtypeJsonConverter`: the JSON converter of the `Mtype` enum of a
    device's status. Reading accepts any non-blank JSON string and decides
    by one case-insensitive substring test; writing emits the member's
    name. */
module MtypeConverter {

  import opened Wrappers
  import opened Text

  /** An `Mtype` value: the enum's underlying `int`, which a cast can set to
      a number no member declares. */
  type Mtype = int

  const UnConfirmedDataUp: Mtype := 0
  const ConfirmedDataUp: Mtype := 1

  /** The kinds of token `Utf8JsonReader.TokenType` reports. */
  datatype TokenKind =
    | NoToken | StartObject | EndObject | StartArray | EndArray | PropertyName
    | Comment | StringKind | Number | True | False | Null

  /** The token the reader stands on: a JSON string with its text, or a
      token of another kind. */
  datatype Token = StringToken(text: string) | OtherToken(kind: TokenKind)

  /** The exceptions the converter throws. */
  datatype ConvertError =
    | JsonException(message: string)
    | ArgumentOutOfRangeException(value: Mtype)

  /** The name `JsonTokenType.ToString()` gives a kind. */
  function KindName(k: TokenKind): string {
    match k
    case NoToken => "None"
    case StartObject => "StartObject"
    case EndObject => "EndObject"
    case StartArray => "StartArray"
    case EndArray => "EndArray"
    case PropertyName => "PropertyName"
    case Comment => "Comment"
    case StringKind => "String"
    case Number => "Number"
    case True => "True"
    case False => "False"
    case Null => "Null"
  }

  const UnconfirmedNeedle: string := "unconfirmed"
  const UnConfirmedName: string := "UnConfirmedDataUp"
  const ConfirmedName: string := "ConfirmedDataUp"

  /** `Read`: a token that is not a string, and a blank string, raise
      `JsonException`; a string containing "unconfirmed" in any case is
      `UnConfirmedDataUp`, every other string `ConfirmedDataUp`. */
  function Read(token: Token): (r: Result<Mtype, ConvertError>)
    ensures token.OtherToken? ==> r == Err(JsonException("Could not deserialize MTYPE from " + KindName(token.kind)))
    ensures token.StringToken? && IsNullOrWhiteSpace(Some(token.text))
            ==> r == Err(JsonException("Could not deserialize MTYPE from empty string"))
    ensures r.Ok? <==> token.StringToken? && !IsNullOrWhiteSpace(Some(token.text))
    ensures r == Ok(UnConfirmedDataUp)
            <==> token.StringToken? && !IsNullOrWhiteSpace(Some(token.text)) && ContainsIgnoreCase(token.text, UnconfirmedNeedle)
    ensures r == Ok(ConfirmedDataUp)
            <==> token.StringToken? && !IsNullOrWhiteSpace(Some(token.text)) && !ContainsIgnoreCase(token.text, UnconfirmedNeedle)
  {
    match token
    case OtherToken(k) => Err(JsonException("Could not deserialize MTYPE from " + KindName(k)))
    case StringToken(value) =>
      if IsNullOrWhiteSpace(Some(value)) then Err(JsonException("Could not deserialize MTYPE from empty string"))
      else if ContainsIgnoreCase(value, UnconfirmedNeedle) then Ok(UnConfirmedDataUp)
      else Ok(ConfirmedDataUp)
  }

  /** `Write`: the string value written for each member; any other value
      raises `ArgumentOutOfRangeException`. */
  function Write(value: Mtype): (r: Result<string, ConvertError>)
    ensures r.Ok? <==> value == UnConfirmedDataUp || value == ConfirmedDataUp
    ensures value == UnConfirmedDataUp ==> r == Ok(UnConfirmedName)
    ensures value == ConfirmedDataUp ==> r == Ok(ConfirmedName)
    ensures r.Err? ==> r.error == ArgumentOutOfRangeException(value)
  {
    if value == UnConfirmedDataUp then Ok(UnConfirmedName)
    else if value == ConfirmedDataUp then Ok(ConfirmedName)
    else Err(ArgumentOutOfRangeException(value))
  }

  /** Neither name is blank. */
  lemma NamesNotBlank()
    ensures !IsNullOrWhiteSpace(Some(UnConfirmedName))
    ensures !IsNullOrWhiteSpace(Some(ConfirmedName))
  {
    assert !IsWhiteSpace(UnConfirmedName[0]);
    assert !IsWhiteSpace(ConfirmedName[0]);
  }

  /** "UnConfirmedDataUp" holds the needle at its start. */
  lemma UnConfirmedNameMatches()
    ensures ContainsIgnoreCase(UnConfirmedName, UnconfirmedNeedle)
  {
    assert ToLower(UnconfirmedNeedle) == UnconfirmedNeedle;
    assert ToLower(UnConfirmedName) == "unconfirmeddataup";
    assert IsPrefix(ToLower(UnconfirmedNeedle), ToLower(UnConfirmedName));
  }

  /** "ConfirmedDataUp" does not: its only 'u' is too close to the end. */
  lemma ConfirmedNameMisses()
    ensures !ContainsIgnoreCase(ConfirmedName, UnconfirmedNeedle)
  {
    var s := ToLower(ConfirmedName);
    assert s[..5] == "confi";
    assert ToLower(UnconfirmedNeedle) == UnconfirmedNeedle;
    NotContainsByFirst(s, UnconfirmedNeedle);
  }

  /** Reading back what was written gives the member that was written, for
      both members. */
  lemma RoundTrip(m: Mtype)
    requires m == UnConfirmedDataUp || m == ConfirmedDataUp
    ensures Write(m).Ok? && Read(StringToken(Write(m).value)) == Ok(m)
  {
    NamesNotBlank();
    UnConfirmedNameMatches();
    ConfirmedNameMisses();
  }

  /** Reading ignores case: a string and its lower-case form read alike. */
  lemma ReadIgnoresCase(s: string)
    ensures Read(StringToken(ToLower(s))) == Read(StringToken(s))
  {
    var l := ToLower(s);
    assert ToLower(l) == ToLower(s) by {
      forall i | 0 <= i < |s|
        ensures ToLower(l)[i] == ToLower(s)[i]
      {
        assert ToLowerChar(ToLowerChar(s[i])) == ToLowerChar(s[i]);
      }
    }
    forall i | 0 <= i < |s|
      ensures IsWhiteSpace(l[i]) == IsWhiteSpace(s[i])
    {
    }
    assert IsNullOrWhiteSpace(Some(l)) == IsNullOrWhiteSpace(Some(s));
  }
}
