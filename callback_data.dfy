/**
 * The strings carried by the inline buttons of the bot: `apply_game:{game_id}` on a
 * listed match and `app_decision:{app_id}:{action}` on the creator's accept/reject
 * buttons, together with the parsing the callback handlers do on them
 * (`str.split(":")` and `int(...)`).
 */
module CallbackData {
  import opened Wrappers

  const APPLY_PREFIX := "apply_game"
  const DECISION_PREFIX := "app_decision"
  const SEPARATOR := ':'
  /** The two actions the creator's buttons carry. */
  const ACCEPT := "accepted"
  const REJECT := "rejected"
  /** What the dispatcher's `startswith` filters look for in front of the data. */
  const APPLY_ROUTE := APPLY_PREFIX + [SEPARATOR]
  const DECISION_ROUTE := DECISION_PREFIX + [SEPARATOR]

  /** `s.startswith(prefix)`. */
  predicate StartsWith(s: string, prefix: string) {
    |prefix| <= |s| && s[..|prefix|] == prefix
  }

  // ---------------------------------------------------------------------------
  // str.split(sep) and its inverse sep.join(parts)
  // ---------------------------------------------------------------------------

  /** `sep.join(parts)`. */
  function Join(parts: seq<string>, sep: char): string
    requires |parts| >= 1
  {
    if |parts| == 1 then parts[0] else parts[0] + [sep] + Join(parts[1..], sep)
  }

  /**
   * Python's `s.split(sep)` for a one-character separator: never empty, no piece
   * holds the separator, and joining the pieces back gives `s`.
   */
  function Split(s: string, sep: char): (parts: seq<string>)
    ensures |parts| >= 1
    ensures forall p :: p in parts ==> sep !in p
    ensures Join(parts, sep) == s
  {
    if |s| == 0 then [""]
    else
      var rest := Split(s[1..], sep);
      if s[0] == sep then
        assert ([""] + rest)[1..] == rest;
        [""] + rest
      else
        var parts := [[s[0]] + rest[0]] + rest[1..];
        assert parts[1..] == rest[1..];
        assert forall p :: p in parts ==> p == parts[0] || p in rest;
        assert Join(parts, sep) == [s[0]] + Join(rest, sep) by {
          if |rest| > 1 {
            assert Join(rest, sep) == rest[0] + [sep] + Join(rest[1..], sep);
          }
        }
        assert [s[0]] + s[1..] == s;
        parts
  }

  /** Two or more pieces are joined by at least one separator. */
  lemma JoinHasSeparator(parts: seq<string>, sep: char)
    requires |parts| >= 2
    ensures sep in Join(parts, sep)
  {
    assert Join(parts, sep)[|parts[0]|] == sep;
  }

  /** A separator-free prefix stays glued to the first piece of what follows it. */
  lemma {:induction false} SplitAfterPlain(x: string, y: string, sep: char)
    requires sep !in x
    ensures Split(x + y, sep) == [x + Split(y, sep)[0]] + Split(y, sep)[1..]
  {
    if |x| == 0 {
      assert x + y == y;
      var s := Split(y, sep);
      assert x + s[0] == s[0];
      assert [s[0]] + s[1..] == s;
    } else {
      SplitAfterPlain(x[1..], y, sep);
      assert (x + y)[1..] == x[1..] + y;
      assert [x[0]] + (x[1..] + Split(y, sep)[0]) == x + Split(y, sep)[0];
    }
  }

  /** Splitting a join of separator-free pieces gives the pieces back. */
  lemma {:induction false} SplitJoin(parts: seq<string>, sep: char)
    requires |parts| >= 1
    requires forall i :: 0 <= i < |parts| ==> sep !in parts[i]
    ensures Split(Join(parts, sep), sep) == parts
  {
    if |parts| == 1 {
      SplitAfterPlain(parts[0], "", sep);
      assert parts[0] + "" == parts[0];
    } else {
      var tail := Join(parts[1..], sep);
      SplitJoin(parts[1..], sep);
      SplitAfterPlain(parts[0], [sep] + tail, sep);
      assert ([sep] + tail)[1..] == tail;
      assert Split([sep] + tail, sep) == [""] + parts[1..];
      assert parts[0] + "" == parts[0];
      assert parts[0] + [sep] + tail == parts[0] + ([sep] + tail);
      assert [parts[0]] + parts[1..] == parts;
    }
  }

  // ---------------------------------------------------------------------------
  // str(n) and int(s)
  // ---------------------------------------------------------------------------

  predicate IsDigit(c: char) { '0' <= c <= '9' }

  /** `s.isdigit()` over ASCII digits: non-empty and digits only. */
  predicate AllDigits(s: string) {
    |s| > 0 && forall i :: 0 <= i < |s| ==> IsDigit(s[i])
  }

  function DigitValue(c: char): nat
    requires IsDigit(c)
  {
    c as int - '0' as int
  }

  /** The value of a decimal numeral. */
  function DigitsValue(s: string): nat
    requires forall i :: 0 <= i < |s| ==> IsDigit(s[i])
  {
    if |s| == 0 then 0
    else DigitsValue(s[..|s| - 1]) * 10 + DigitValue(s[|s| - 1])
  }

  function DigitChar(d: nat): char
    requires d < 10
  {
    ('0' as int + d) as char
  }

  /** `str(n)` for a non-negative integer: its decimal numeral. */
  function NatToString(n: nat): (s: string)
    ensures AllDigits(s)
  {
    if n < 10 then [DigitChar(n)] else NatToString(n / 10) + [DigitChar(n % 10)]
  }

  /** `str(n)` for any integer. */
  function IntToString(n: int): string {
    if n < 0 then "-" + NatToString(-n) else NatToString(n)
  }

  /** `int(s)`: an optional sign and a decimal numeral; anything else fails. */
  function ParseInt(s: string): Option<int> {
    if |s| > 0 && (s[0] == '-' || s[0] == '+') && AllDigits(s[1..]) then
      var magnitude: int := DigitsValue(s[1..]);
      Some(if s[0] == '-' then -magnitude else magnitude)
    else if AllDigits(s) then Some(DigitsValue(s))
    else None
  }

  lemma {:induction false} NatToStringValue(n: nat)
    ensures DigitsValue(NatToString(n)) == n
  {
    if n >= 10 {
      NatToStringValue(n / 10);
      var s := NatToString(n);
      assert s[..|s| - 1] == NatToString(n / 10);
    }
  }

  /** `int(str(n)) == n`. */
  lemma IntRoundTrip(n: int)
    ensures ParseInt(IntToString(n)) == Some(n)
  {
    if n < 0 {
      NatToStringValue(-n);
      assert IntToString(n)[1..] == NatToString(-n);
    } else {
      NatToStringValue(n);
    }
  }

  lemma NumeralHasNoSeparator(n: int)
    ensures SEPARATOR !in IntToString(n)
  {
  }

  // ---------------------------------------------------------------------------
  // The two kinds of callback data
  // ---------------------------------------------------------------------------

  /** `f"apply_game:{game_id}"`. */
  function EncodeApply(gameId: int): string {
    APPLY_PREFIX + [SEPARATOR] + IntToString(gameId)
  }

  /** `int(data.split(":")[1])`; `None` where Python raises. */
  function ParseApply(data: string): (r: Option<int>)
    ensures r.Some? ==> SEPARATOR in data
  {
    var parts := Split(data, SEPARATOR);
    if |parts| < 2 then None
    else
      JoinHasSeparator(parts, SEPARATOR);
      ParseInt(parts[1])
  }

  lemma ApplyRoundTrip(gameId: int)
    ensures ParseApply(EncodeApply(gameId)) == Some(gameId)
  {
    var parts := [APPLY_PREFIX, IntToString(gameId)];
    NumeralHasNoSeparator(gameId);
    assert Join(parts[1..], SEPARATOR) == parts[1];
    assert Join(parts, SEPARATOR) == EncodeApply(gameId);
    SplitJoin(parts, SEPARATOR);
    IntRoundTrip(gameId);
  }

  datatype DecisionData = DecisionData(app: int, action: string)

  /** `f"app_decision:{app_id}:{action}"`. */
  function EncodeDecision(appId: int, action: string): string {
    DECISION_PREFIX + [SEPARATOR] + IntToString(appId) + [SEPARATOR] + action
  }

  /**
   * `_, app_id_str, action = data.split(":")` followed by `int(app_id_str)`: exactly
   * three pieces and a numeral in the middle, `None` where Python raises.
   */
  function ParseDecision(data: string): (r: Option<DecisionData>)
    ensures r.Some? ==> SEPARATOR in data && SEPARATOR !in r.value.action
  {
    var parts := Split(data, SEPARATOR);
    if |parts| != 3 then None
    else
      JoinHasSeparator(parts, SEPARATOR);
      assert parts[2] in parts;
      match ParseInt(parts[1])
      case None => None
      case Some(id) => Some(DecisionData(id, parts[2]))
  }

  /** Every button the creator is sent parses back to its application and action. */
  lemma DecisionRoundTrip(appId: int, action: string)
    requires SEPARATOR !in action
    ensures ParseDecision(EncodeDecision(appId, action)) == Some(DecisionData(appId, action))
  {
    var parts := [DECISION_PREFIX, IntToString(appId), action];
    NumeralHasNoSeparator(appId);
    assert Join(parts[2..], SEPARATOR) == action;
    assert Join(parts[1..], SEPARATOR) == IntToString(appId) + [SEPARATOR] + action;
    assert Join(parts, SEPARATOR) == EncodeDecision(appId, action);
    SplitJoin(parts, SEPARATOR);
    IntRoundTrip(appId);
  }
}
