/**
 * The text that goes with an error code: a fixed table with a fallback for
 * codes the table does not list.
 */
module ServerErrors {
  import opened Types

  /** `errorMap`: the text of each code the table lists. */
  const ERROR_MAP: map<Code, string> := map[
    ERROR_UNKNOWN_COMMAND := "No such command.",
    ERROR_NO_SUCH_SERVER := "No such server.",
    ERROR_NICKNAME_IN_USE := "Nickname is already in use.",
    ERROR_NO_SUCH_NICK := "No such nick.",
    ERROR_ALREADY_REGISTERED := "You may not reregister.",
    ERROR_NOT_REGISTERED := "You have not registered",
    ERROR_USERS_DONT_MATCH := "Users don't match",
    ERROR_NO_SUCH_CHANNEL := "No such channel"
  ]

  /** The codes the table lists. */
  const MAPPED_CODES: set<Code> := {
    ERROR_UNKNOWN_COMMAND, ERROR_NO_SUCH_SERVER, ERROR_NICKNAME_IN_USE, ERROR_NO_SUCH_NICK,
    ERROR_ALREADY_REGISTERED, ERROR_NOT_REGISTERED, ERROR_USERS_DONT_MATCH, ERROR_NO_SUCH_CHANNEL
  }

  function DigitChar(d: nat): char
    requires d < 10
  {
    ('0' as int + d) as char
  }

  /** Decimal rendering of a natural number, as Swift's string interpolation of an Int. */
  function Decimal(n: nat): (s: string)
    ensures |s| >= 1
    ensures forall i | 0 <= i < |s| :: '0' <= s[i] <= '9'
  {
    if n < 10 then [DigitChar(n)] else Decimal(n / 10) + [DigitChar(n % 10)]
  }

  /** The number a string of decimal digits denotes. */
  function DecimalValue(s: string): nat
    requires forall i | 0 <= i < |s| :: '0' <= s[i] <= '9'
  {
    if s == [] then 0
    else 10 * DecimalValue(s[..|s| - 1]) + (s[|s| - 1] as nat - '0' as nat)
  }

  lemma {:induction false} DecimalRoundTrip(n: nat)
    ensures DecimalValue(Decimal(n)) == n
  {
    var s := Decimal(n);
    if n >= 10 {
      DecimalRoundTrip(n / 10);
      assert s[..|s| - 1] == Decimal(n / 10);
      assert s[|s| - 1] as nat - '0' as nat == n % 10;
    }
  }

  /** `errorMessage`: the table text for a listed code, else a text naming the raw code. */
  function ErrorMessage(code: Code): (text: string)
    ensures |text| > 0
  {
    if code in ERROR_MAP then ERROR_MAP[code] else "Unmapped error code " + Decimal(code)
  }

  /**
   * The eight entries written in the table have eight different codes: none
   * overrides another (a Swift dictionary literal with a repeated key traps),
   * so each listed code has exactly one text.
   */
  lemma TableKeysDistinct()
    ensures ERROR_MAP.Keys == MAPPED_CODES
    ensures |ERROR_MAP| == 8
  {
    assert ERROR_MAP.Keys == MAPPED_CODES;
    MappedCodeCount();
  }

  /** The table lists eight different codes. */
  lemma MappedCodeCount()
    ensures |MAPPED_CODES| == 8
  {
    var low := {ERROR_NO_SUCH_NICK, ERROR_NO_SUCH_SERVER, ERROR_NO_SUCH_CHANNEL, ERROR_UNKNOWN_COMMAND};
    var high := {ERROR_NICKNAME_IN_USE, ERROR_NOT_REGISTERED, ERROR_ALREADY_REGISTERED, ERROR_USERS_DONT_MATCH};
    assert |low| == 4 && |high| == 4;
    assert low * high == {};
    assert MAPPED_CODES == low + high;
  }

  /** The eight table texts. */
  lemma MappedTexts()
    ensures ErrorMessage(ERROR_UNKNOWN_COMMAND) == "No such command."
    ensures ErrorMessage(ERROR_NO_SUCH_SERVER) == "No such server."
    ensures ErrorMessage(ERROR_NICKNAME_IN_USE) == "Nickname is already in use."
    ensures ErrorMessage(ERROR_NO_SUCH_NICK) == "No such nick."
    ensures ErrorMessage(ERROR_ALREADY_REGISTERED) == "You may not reregister."
    ensures ErrorMessage(ERROR_NOT_REGISTERED) == "You have not registered"
    ensures ErrorMessage(ERROR_USERS_DONT_MATCH) == "Users don't match"
    ensures ErrorMessage(ERROR_NO_SUCH_CHANNEL) == "No such channel"
  {
  }

  /** A code outside the table reads "Unmapped error code " and its decimal value. */
  lemma {:induction false} UnmappedText(code: Code)
    requires code !in MAPPED_CODES
    ensures ErrorMessage(code) == "Unmapped error code " + Decimal(code)
    ensures DecimalValue(ErrorMessage(code)[20..]) == code
  {
    TableKeysDistinct();
    DecimalRoundTrip(code);
    assert ErrorMessage(code)[20..] == Decimal(code);
  }
}
