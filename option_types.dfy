/** The value types of the worker's configuration options (worker/worker.py,
    `_bool`, `_alpha_numeric`, `_memory`, `_concurrency`, and Python's `int`
    as used on option strings). Each is a function from the option text to
    a value or a `ValueError`. The arithmetic expression language accepted
    by `--concurrency` and `--max_memory` is an external parser; its result
    for a text (already rounded to an integer) is an input here, `None`
    when the parser raises. */
module OptionTypes {
  import opened Wrappers
  import opened Text

  /** Python's `ValueError(x)`, carrying the text that was refused. */
  datatype ValueError = ValueError(text: seq<char>)

  /** `_bool`: after stripping and lower-casing, "true" and "1" mean True,
      "false" and "0" mean False, and anything else is refused. */
  function ParseBool(x: seq<char>): (r: Result<bool, ValueError>)
    ensures r == Ok(true) <==> Lower(Strip(x)) in {"true", "1"}
    ensures r == Ok(false) <==> Lower(Strip(x)) in {"false", "0"}
    ensures r.Err? <==> Lower(Strip(x)) !in {"true", "1", "false", "0"}
  {
    var t := Lower(Strip(x));
    if t in {"true", "1"} then Ok(true)
    else if t in {"false", "0"} then Ok(false)
    else Err(ValueError(t))
  }

  /** Python's `str(b)` for a boolean, which is what the worker writes back
      into its configuration file for the `fleet` option. */
  function BoolText(b: bool): seq<char>
  {
    if b then "True" else "False"
  }

  /** `_bool` reads back what `str` wrote. */
  lemma ParseBoolText(b: bool)
    ensures ParseBool(BoolText(b)) == Ok(b)
  {
    StripFixpoint(BoolText(b));
    assert Lower(BoolText(b)) == if b then "true" else "false";
  }

  /** Surrounding whitespace and upper-case letters do not matter:
      " TRUE\n" is read as True. */
  lemma ParseBoolPadded(pre: seq<char>, w: seq<char>, post: seq<char>)
    requires forall k :: 0 <= k < |pre| ==> IsSpace(pre[k])
    requires forall k :: 0 <= k < |post| ==> IsSpace(post[k])
    requires Lower(w) in {"true", "1", "false", "0"}
    ensures ParseBool(pre + w + post) == Ok(Lower(w) in {"true", "1"})
  {
    assert w != [] && !IsSpace(w[0]) && !IsSpace(w[|w| - 1]) by {
      assert |Lower(w)| == |w| && LowerChar(w[0]) == Lower(w)[0];
      assert LowerChar(w[|w| - 1]) == Lower(w)[|w| - 1];
    }
    StripPadded(pre, w, post);
  }

  /** The `uuid_prefix` option value that asks for a hardware-derived prefix. */
  const HardwarePrefix: seq<char> := "_hw"

  /** The longest prefix `_alpha_numeric` keeps. */
  const MaxPrefixLength: nat := 8

  /** `_alpha_numeric`: after stripping, "_hw" is kept as it is; otherwise
      the text must be at least two characters long, ASCII, and made of
      letters and digits, and its first eight characters are kept. */
  function AlphaNumeric(x: seq<char>): (r: Result<seq<char>, ValueError>)
    ensures r.Ok? <==>
      Strip(x) == HardwarePrefix || (|Strip(x)| > 1 && IsAscii(Strip(x)) && IsAsciiAlnum(Strip(x)))
    ensures r.Ok? ==> |r.value| <= MaxPrefixLength
    ensures r.Ok? ==>
      |r.value| == if |Strip(x)| < MaxPrefixLength then |Strip(x)| else MaxPrefixLength
    ensures r.Ok? ==> r.value <= Strip(x)
  {
    var t := Strip(x);
    if t == HardwarePrefix then Ok(t)
    else if |t| <= 1 then Err(ValueError(t))
    else if !IsAscii(t) || !IsAsciiAlnum(t) then Err(ValueError(t))
    else Ok(t[..if |t| < MaxPrefixLength then |t| else MaxPrefixLength])
  }

  /** An accepted prefix is accepted again, unchanged: writing the option
      back to the configuration file and reading it again is stable. */
  lemma AlphaNumericStable(x: seq<char>)
    requires AlphaNumeric(x).Ok?
    ensures AlphaNumeric(AlphaNumeric(x).value) == Ok(AlphaNumeric(x).value)
  {
    var t := Strip(x);
    var v := AlphaNumeric(x).value;
    if t != HardwarePrefix {
      assert v == t[..|v|];
      assert forall k :: 0 <= k < |v| ==> v[k] == t[k];
      assert IsAscii(v) && IsAsciiAlnum(v);
      assert IsAsciiLetter(v[0]) || IsDigit(v[0]);
      assert IsAsciiLetter(v[|v| - 1]) || IsDigit(v[|v| - 1]);
    }
    StripFixpoint(v);
    assert v[..|v|] == v;
  }

  /** The hardware marker "_hw", the default prefix, is accepted as it is. */
  lemma HardwarePrefixAccepted()
    ensures AlphaNumeric(HardwarePrefix) == Ok(HardwarePrefix)
  {
    StripFixpoint(HardwarePrefix);
  }

  /** The text and the value an expression option evaluates to, which is
      what `_memory` and `_concurrency` return. */
  datatype Evaluated = Evaluated(text: seq<char>, value: int)

  /** `_concurrency(MAX)`: the expression must evaluate to at least 1 and at
      most MAX, and may reach MAX only when the text mentions MAX. */
  function Concurrency(x: seq<char>, parsed: Option<int>, max: int): (r: Result<Evaluated, ValueError>)
    ensures r.Ok? ==> r.value.text == x && parsed == Some(r.value.value)
    ensures r.Ok? ==> 1 <= r.value.value <= max
    ensures r.Ok? && !Contains(x, "MAX") ==> r.value.value < max
    ensures parsed.Some? && 1 <= parsed.value && (parsed.value < max || (parsed.value == max && Contains(x, "MAX")))
      ==> r.Ok?
  {
    match parsed
    case None => Err(ValueError(x))
    case Some(v) =>
      if v <= 0 then Err(ValueError(x))
      else if (!Contains(x, "MAX") && v >= max) || v > max then Err(ValueError(x))
      else Ok(Evaluated(x, v))
  }

  /** `_memory(MAX)`: the value of the expression clamped into [0, MAX]. */
  function Memory(x: seq<char>, parsed: Option<int>, max: int): (r: Result<Evaluated, ValueError>)
    ensures r.Ok? <==> parsed.Some?
    ensures r.Ok? ==> r.value.text == x
    ensures r.Ok? && 0 <= max ==> 0 <= r.value.value <= max
    ensures r.Ok? && 0 <= parsed.value <= max ==> r.value.value == parsed.value
    ensures r.Ok? && parsed.value < 0 ==> r.value.value == 0
    ensures r.Ok? && 0 <= max < parsed.value ==> r.value.value == max
  {
    match parsed
    case None => Err(ValueError(x))
    case Some(v) =>
      var low := if v < max then v else max;
      Ok(Evaluated(x, if low > 0 then low else 0))
  }

  /** A run of decimal digits in which single underscores may separate
      digits, as Python's `int` reads it. */
  predicate DigitGroups(s: seq<char>)
  {
    && |s| > 0 && IsDigit(s[0]) && IsDigit(s[|s| - 1])
    && (forall k :: 0 <= k < |s| ==> IsDigit(s[k]) || s[k] == '_')
    && (forall k :: 0 < k < |s| && s[k] == '_' ==> s[k - 1] != '_')
  }

  /** Python's `int(x)` on a string succeeds: after stripping, an optional
      sign followed by decimal digit groups. */
  predicate IsIntText(x: seq<char>)
  {
    var t := Strip(x);
    if |t| > 0 && (t[0] == '+' || t[0] == '-') then DigitGroups(t[1..]) else DigitGroups(t)
  }

  /** A non-empty run of decimal digits is a valid `int` text; in
      particular what the worker writes for a number (`str(n)`) is, so a
      written-back port or seed is accepted again. */
  lemma IntTextOfDigits(d: seq<char>)
    requires |d| > 0 && AllDigits(d)
    ensures IsIntText(d)
  {
    assert !IsSpace(d[0]) && !IsSpace(d[|d| - 1]);
    StripFixpoint(d);
  }
}
