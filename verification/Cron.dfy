// Cron expressions: fairyclaw/core/runtime/timer_models.py. Fields are validated and matched
// character by character, as the code does; a grammar says independently what they mean.
module Cron {
  import opened Wrappers

  // What the code asks of Python's text library. A character can be a digit without being a
  // decimal: then isdigit() accepts it and int() raises. So does int() on more digits than the
  // interpreter's limit, if it has one.
  datatype TextLibrary = TextLibrary(
    isSpace: char -> bool,
    isDigit: char -> bool,
    decimal: char -> Option<nat>,
    toInt: string -> Option<int>,
    digitLimit: Option<nat>)

  // An exception in the Python code is the outcome Raises.
  datatype Outcome<T> = Value(value: T) | Raises

  function Decimals(lib: TextLibrary, text: string): Option<nat> {
    if text == "" then None
    else
      var last := lib.decimal(text[|text| - 1]);
      if last.None? then None
      else if |text| == 1 then last
      else
        match Decimals(lib, text[..|text| - 1])
        case None => None
        case Some(n) => Some(10 * n + last.value)
  }

  predicate WithinLimit(lib: TextLibrary, digits: nat) {
    lib.digitLimit.Some? ==> digits <= lib.digitLimit.value
  }

  // Decimals, and not too many.
  function Numeral(lib: TextLibrary, text: string): Option<nat> {
    if WithinLimit(lib, |text|) then Decimals(lib, text) else None
  }

  predicate IsDigits(lib: TextLibrary, text: string) {
    text != "" && forall k :: 0 <= k < |text| ==> lib.isDigit(text[k])
  }

  const PUNCTUATION := "*,-/"

  // The least limit an interpreter accepts, and the one it starts with.
  const LEAST_LIMIT := 640
  const DEFAULT_LIMIT := 4300

  // On text made of digits, int() gives the value of a numeral and raises on anything else.
  ghost predicate Lawful(lib: TextLibrary) {
    && (lib.digitLimit.Some? ==> lib.digitLimit.value >= LEAST_LIMIT)
    && (forall c :: lib.decimal(c).Some? ==> lib.isDigit(c))
    && (forall c :: lib.isDigit(c) ==> c !in PUNCTUATION && !lib.isSpace(c))
    && (forall c :: c in PUNCTUATION ==> !lib.isSpace(c))
    && (forall text :: IsDigits(lib, text) ==>
          lib.toInt(text) == match Numeral(lib, text) case None => None case Some(n) => Some(n as int))
  }

  // ---------- strings ----------

  function IndexOf(text: string, c: char): nat {
    if text == "" || text[0] == c then 0 else 1 + IndexOf(text[1..], c)
  }

  lemma {:induction false} IndexOfIs(text: string, c: char)
    ensures IndexOf(text, c) <= |text| && c !in text[..IndexOf(text, c)]
    ensures IndexOf(text, c) < |text| <==> c in text
    ensures IndexOf(text, c) < |text| ==> text[IndexOf(text, c)] == c
  {
    if text != "" && text[0] != c {
      IndexOfIs(text[1..], c);
      assert text[..IndexOf(text, c)] == [text[0]] + text[1..][..IndexOf(text[1..], c)];
    }
  }

  lemma {:induction false} FirstIs(text: string, c: char, k: nat)
    requires k < |text| && text[k] == c && c !in text[..k]
    ensures IndexOf(text, c) == k
  {
    if k > 0 {
      assert text[..k][0] == text[0];
      assert text[..k] == [text[0]] + text[1..][..k - 1];
      FirstIs(text[1..], c, k - 1);
    }
  }

  function Before(text: string, c: char): string {
    IndexOfIs(text, c);
    text[..IndexOf(text, c)]
  }

  function After(text: string, c: char): string
    requires c in text
  {
    IndexOfIs(text, c);
    text[IndexOf(text, c) + 1..]
  }

  function Split(text: string, c: char): (parts: seq<string>)
    ensures |parts| > 0
    ensures forall i :: 0 <= i < |parts| ==> forall x :: x in parts[i] ==> x in text && x != c
    decreases |text|
  {
    IndexOfIs(text, c);
    if c !in text then [text] else [Before(text, c)] + Split(After(text, c), c)
  }

  function Strip(lib: TextLibrary, text: string): string {
    if text == "" then ""
    else if lib.isSpace(text[0]) then Strip(lib, text[1..])
    else if lib.isSpace(text[|text| - 1]) then Strip(lib, text[..|text| - 1])
    else text
  }

  // Stripping takes off white space at both ends and leaves none there.
  lemma {:induction false} StripIs(lib: TextLibrary, text: string) returns (i: nat, j: nat)
    ensures i <= j <= |text| && Strip(lib, text) == text[i..j]
    ensures forall k :: (0 <= k < i || j <= k < |text|) ==> lib.isSpace(text[k])
    ensures i < j ==> !lib.isSpace(text[i]) && !lib.isSpace(text[j - 1])
    decreases |text|
  {
    i, j := 0, |text|;
    if text != "" && lib.isSpace(text[0]) {
      i, j := StripIs(lib, text[1..]);
      assert forall k :: 0 < k < |text| ==> text[k] == text[1..][k - 1];
      i, j := i + 1, j + 1;
      assert text[1..][i - 1..j - 1] == text[i..j];
    } else if text != "" && lib.isSpace(text[|text| - 1]) {
      i, j := StripIs(lib, text[..|text| - 1]);
      assert text[..|text| - 1][i..j] == text[i..j];
    }
  }

  predicate NoSpace(lib: TextLibrary, text: string) {
    forall k :: 0 <= k < |text| ==> !lib.isSpace(text[k])
  }

  // How far the word at the start of the text reaches.
  function WordEnd(lib: TextLibrary, text: string): (n: nat)
    ensures n <= |text| && NoSpace(lib, text[..n])
    ensures text != "" && !lib.isSpace(text[0]) ==> n > 0
  {
    if text == "" || lib.isSpace(text[0]) then 0
    else
      var n := WordEnd(lib, text[1..]);
      assert text[..n + 1] == [text[0]] + text[1..][..n];
      n + 1
  }

  // str.split() without a separator.
  function Words(lib: TextLibrary, text: string): (words: seq<string>)
    ensures forall i :: 0 <= i < |words| ==> words[i] != "" && NoSpace(lib, words[i])
    decreases |text|
  {
    if text == "" then []
    else if lib.isSpace(text[0]) then Words(lib, text[1..])
    else [text[..WordEnd(lib, text)]] + Words(lib, text[WordEnd(lib, text)..])
  }

  // The parts of an expression; stripping a word changes nothing.
  function Fields(lib: TextLibrary, expr: string): (fields: seq<string>)
    ensures forall i :: 0 <= i < |fields| ==> fields[i] != "" && NoSpace(lib, fields[i])
  {
    var words := Words(lib, Strip(lib, expr));
    seq(|words|, i requires 0 <= i < |words| => Strip(lib, words[i]))
  }

  // ---------- validation ----------

  datatype FieldError = EmptyField | EmptyChunk | BadStep | BadRange(text: string) | OutOfRange(text: string)

  function IsIntInRange(lib: TextLibrary, text: string, lo: int, hi: int): Outcome<bool> {
    if !IsDigits(lib, text) then Value(false)
    else
      match lib.toInt(text)
      case None => Raises
      case Some(v) => Value(lo <= v <= hi)
  }

  function ParseRange(lib: TextLibrary, text: string, lo: int, hi: int): Outcome<Option<(int, int)>>
    requires '-' in text
  {
    var left, right := Before(text, '-'), After(text, '-');
    match IsIntInRange(lib, left, lo, hi)
    case Raises => Raises
    case Value(false) => Value(None)
    case Value(true) =>
      match IsIntInRange(lib, right, lo, hi)
      case Raises => Raises
      case Value(false) => Value(None)
      case Value(true) =>
        var first, last := lib.toInt(left).value, lib.toInt(right).value;
        if first > last then Value(None) else Value(Some((first, last)))
  }

  function ValidateRange(lib: TextLibrary, text: string, lo: int, hi: int): Outcome<Option<FieldError>>
    requires '-' in text
  {
    match ParseRange(lib, text, lo, hi)
    case Raises => Raises
    case Value(None) => Value(Some(BadRange(text)))
    case Value(Some(_)) => Value(None)
  }

  function ValidateValue(lib: TextLibrary, text: string, lo: int, hi: int): Outcome<Option<FieldError>> {
    match IsIntInRange(lib, text, lo, hi)
    case Raises => Raises
    case Value(ok) => Value(if ok then None else Some(OutOfRange(text)))
  }

  function ValidateChunk(lib: TextLibrary, chunk: string, lo: int, hi: int): Outcome<Option<FieldError>> {
    if chunk == "" then Value(Some(EmptyChunk))
    else if chunk == "*" then Value(None)
    else if '/' in chunk then
      var base, stepText := Before(chunk, '/'), After(chunk, '/');
      if !IsDigits(lib, stepText) then Value(Some(BadStep))
      else
        match lib.toInt(stepText)
        case None => Raises
        case Some(step) =>
          if step <= 0 then Value(Some(BadStep))
          else if base == "*" then Value(None)
          else if '-' in base then ValidateRange(lib, base, lo, hi)
          else ValidateValue(lib, base, lo, hi)
    else if '-' in chunk then ValidateRange(lib, chunk, lo, hi)
    else ValidateValue(lib, chunk, lo, hi)
  }

  function ValidateChunks(lib: TextLibrary, chunks: seq<string>, lo: int, hi: int): Outcome<Option<FieldError>> {
    if chunks == [] then Value(None)
    else
      match ValidateChunk(lib, Strip(lib, chunks[0]), lo, hi)
      case Raises => Raises
      case Value(Some(error)) => Value(Some(error))
      case Value(None) => ValidateChunks(lib, chunks[1..], lo, hi)
  }

  function ValidateField(lib: TextLibrary, token: string, lo: int, hi: int): Outcome<Option<FieldError>> {
    var normalized := Strip(lib, token);
    if normalized == "" then Value(Some(EmptyField))
    else ValidateChunks(lib, Split(normalized, ','), lo, hi)
  }

  // ---------- expressions ----------

  datatype CronError = WrongFieldCount | BadField(index: nat, error: FieldError)

  const LOWEST: seq<int> := [0, 0, 1, 1, 0]
  const HIGHEST: seq<int> := [59, 23, 31, 12, 6]

  function ValidateFrom(lib: TextLibrary, fields: seq<string>, k: nat): Outcome<Option<CronError>>
    requires |fields| == 5 && k <= 5
    decreases 5 - k
  {
    if k == 5 then Value(None)
    else
      match ValidateField(lib, fields[k], LOWEST[k], HIGHEST[k])
      case Raises => Raises
      case Value(Some(error)) => Value(Some(BadField(k, error)))
      case Value(None) => ValidateFrom(lib, fields, k + 1)
  }

  // parse_cron_5; no error means the expression is accepted.
  function ParseCron(lib: TextLibrary, expr: string): Outcome<Option<CronError>> {
    var fields := Fields(lib, expr);
    if |fields| != 5 then Value(Some(WrongFieldCount)) else ValidateFrom(lib, fields, 0)
  }

  // ---------- matching ----------

  function MatchesStep(lib: TextLibrary, value: int, base: string, stepText: string, lo: int, hi: int): Outcome<bool> {
    match lib.toInt(stepText)
    case None => Raises
    case Some(step) =>
      if base == "*" then
        if step == 0 then Raises else Value((value - lo) % step == 0)
      else if '-' in base then
        match ParseRange(lib, base, lo, hi)
        case Raises => Raises
        case Value(None) => Value(false)
        case Value(Some(range)) =>
          if !(range.0 <= value <= range.1) then Value(false)
          else if step == 0 then Raises
          else Value((value - range.0) % step == 0)
      else
        match IsIntInRange(lib, base, lo, hi)
        case Raises => Raises
        case Value(false) => Value(false)
        case Value(true) =>
          var from := lib.toInt(base).value;
          if value < from then Value(false)
          else if step == 0 then Raises
          else Value((value - from) % step == 0)
  }

  function MatchesChunk(lib: TextLibrary, value: int, chunk: string, lo: int, hi: int): Outcome<bool> {
    if chunk == "*" then Value(true)
    else if '/' in chunk then MatchesStep(lib, value, Before(chunk, '/'), After(chunk, '/'), lo, hi)
    else if '-' in chunk then
      match ParseRange(lib, chunk, lo, hi)
      case Raises => Raises
      case Value(None) => Value(false)
      case Value(Some(range)) => Value(range.0 <= value <= range.1)
    else
      match IsIntInRange(lib, chunk, lo, hi)
      case Raises => Raises
      case Value(ok) => Value(ok && lib.toInt(chunk).value == value)
  }

  function MatchesChunks(lib: TextLibrary, value: int, chunks: seq<string>, lo: int, hi: int): Outcome<bool> {
    if chunks == [] then Value(false)
    else
      match MatchesChunk(lib, value, Strip(lib, chunks[0]), lo, hi)
      case Raises => Raises
      case Value(true) => Value(true)
      case Value(false) => MatchesChunks(lib, value, chunks[1..], lo, hi)
  }

  function MatchesField(lib: TextLibrary, value: int, token: string, lo: int, hi: int): Outcome<bool> {
    MatchesChunks(lib, value, Split(token, ','), lo, hi)
  }

  // ---------- what a field means ----------

  datatype Chunk =
    | Star
    | StarStep(step: nat)
    | Range(first: nat, last: nat)
    | RangeStep(first: nat, last: nat, step: nat)
    | Single(at: nat)
    | FromStep(at: nat, step: nat)

  predicate SpellsRange(lib: TextLibrary, text: string, first: nat, last: nat) {
    exists i :: 0 <= i < |text| && SpellsRangeAt(lib, text, first, last, i)
  }

  predicate SpellsRangeAt(lib: TextLibrary, text: string, first: nat, last: nat, i: nat)
    requires i < |text|
  {
    text[i] == '-' && Numeral(lib, text[..i]) == Some(first) && Numeral(lib, text[i + 1..]) == Some(last)
  }

  predicate SpellsBase(lib: TextLibrary, text: string, c: Chunk) {
    match c
    case Star | StarStep(_) => text == "*"
    case Range(first, last) => SpellsRange(lib, text, first, last)
    case RangeStep(first, last, _) => SpellsRange(lib, text, first, last)
    case Single(at) => Numeral(lib, text) == Some(at)
    case FromStep(at, _) => Numeral(lib, text) == Some(at)
  }

  // The text is a base, followed by a slash and a step for the stepped forms.
  predicate Spells(lib: TextLibrary, text: string, c: Chunk) {
    if c.Star? || c.Range? || c.Single? then SpellsBase(lib, text, c)
    else exists i :: 0 <= i < |text| && SpellsStepAt(lib, text, c, i)
  }

  predicate SpellsStepAt(lib: TextLibrary, text: string, c: Chunk, i: nat)
    requires i < |text| && !(c.Star? || c.Range? || c.Single?)
  {
    text[i] == '/' && SpellsBase(lib, text[..i], c) && Numeral(lib, text[i + 1..]) == Some(c.step)
  }

  predicate Legal(c: Chunk, lo: int, hi: int) {
    match c
    case Star => true
    case StarStep(step) => step > 0
    case Range(first, last) => lo <= first <= last <= hi
    case RangeStep(first, last, step) => lo <= first <= last <= hi && step > 0
    case Single(at) => lo <= at <= hi
    case FromStep(at, step) => lo <= at <= hi && step > 0
  }

  predicate Denotes(c: Chunk, lo: int, hi: int, value: int)
    requires Legal(c, lo, hi)
  {
    match c
    case Star => true
    case StarStep(step) => (value - lo) % step == 0
    case Range(first, last) => first <= value <= last
    case RangeStep(first, last, step) => first <= value <= last && (value - first) % step == 0
    case Single(at) => value == at
    case FromStep(at, step) => value >= at && (value - at) % step == 0
  }

  ghost predicate IsLegal(lib: TextLibrary, text: string, lo: int, hi: int) {
    exists c :: Legal(c, lo, hi) && Spells(lib, text, c)
  }

  ghost predicate ChunkAllows(lib: TextLibrary, text: string, lo: int, hi: int, value: int) {
    exists c :: Legal(c, lo, hi) && Spells(lib, text, c) && Denotes(c, lo, hi, value)
  }

  // The field is a comma-separated list of legal chunks.
  ghost predicate IsField(lib: TextLibrary, token: string, lo: int, hi: int) {
    token != "" && forall i :: 0 <= i < |Split(token, ',')| ==> IsLegal(lib, Split(token, ',')[i], lo, hi)
  }

  ghost predicate Allows(lib: TextLibrary, token: string, lo: int, hi: int, value: int) {
    exists i :: 0 <= i < |Split(token, ',')| && ChunkAllows(lib, Split(token, ',')[i], lo, hi, value)
  }

  // ---------- numerals ----------

  lemma {:induction false} DecimalsAreDigits(lib: TextLibrary, text: string)
    requires Lawful(lib) && Decimals(lib, text).Some?
    ensures IsDigits(lib, text)
  {
    if |text| > 1 {
      DecimalsAreDigits(lib, text[..|text| - 1]);
      assert text == text[..|text| - 1] + [text[|text| - 1]];
    }
  }

  lemma NumeralPlain(lib: TextLibrary, text: string)
    requires Lawful(lib) && Numeral(lib, text).Some?
    ensures '/' !in text && '-' !in text && '*' !in text && text != "" && IsDigits(lib, text)
    ensures lib.toInt(text) == Some(Numeral(lib, text).value as int)
  {
    DecimalsAreDigits(lib, text);
    assert '/' in PUNCTUATION && '-' in PUNCTUATION && '*' in PUNCTUATION;
  }

  lemma IntIsNumeral(lib: TextLibrary, text: string)
    requires Lawful(lib) && IsDigits(lib, text) && lib.toInt(text).Some?
    ensures Numeral(lib, text).Some? && lib.toInt(text) == Some(Numeral(lib, text).value as int)
  {
  }

  // ---------- chunks ----------

  lemma Cut(text: string, c: char, i: nat)
    requires i < |text| && text[i] == c && c !in text[..i]
    ensures c in text && Before(text, c) == text[..i] && After(text, c) == text[i + 1..]
    ensures forall d :: d != c && d !in text[..i] && d !in text[i + 1..] ==> d !in text
  {
    FirstIs(text, c, i);
    assert text == text[..i] + [c] + text[i + 1..];
  }

  lemma RangeParses(lib: TextLibrary, text: string, first: nat, last: nat, lo: int, hi: int)
    requires Lawful(lib) && SpellsRange(lib, text, first, last) && lo <= first <= last <= hi
    ensures '-' in text && '/' !in text && text != "*" && text != ""
    ensures ParseRange(lib, text, lo, hi) == Value(Some((first as int, last as int)))
  {
    var i :| 0 <= i < |text| && SpellsRangeAt(lib, text, first, last, i);
    NumeralPlain(lib, text[..i]);
    NumeralPlain(lib, text[i + 1..]);
    Cut(text, '-', i);
  }

  lemma ParsedRange(lib: TextLibrary, text: string, lo: int, hi: int)
    requires Lawful(lib) && '-' in text
    requires ParseRange(lib, text, lo, hi).Value? && ParseRange(lib, text, lo, hi).value.Some?
    ensures var (first, last) := ParseRange(lib, text, lo, hi).value.value;
            lo <= first <= last <= hi && SpellsRange(lib, text, first, last)
  {
    IndexOfIs(text, '-');
    IntIsNumeral(lib, Before(text, '-'));
    IntIsNumeral(lib, After(text, '-'));
    var range := ParseRange(lib, text, lo, hi).value.value;
    assert SpellsRangeAt(lib, text, range.0, range.1, IndexOf(text, '-'));
  }

  // A base without a step.
  lemma BaseMatches(lib: TextLibrary, text: string, c: Chunk, lo: int, hi: int, value: int)
    requires Lawful(lib) && Legal(c, lo, hi) && Spells(lib, text, c) && (c.Star? || c.Range? || c.Single?)
    ensures ValidateChunk(lib, text, lo, hi) == Value(None)
    ensures MatchesChunk(lib, value, text, lo, hi) == Value(Denotes(c, lo, hi, value))
  {
    match c
    case Range(first, last) => RangeParses(lib, text, first, last, lo, hi);
    case Single(_) => NumeralPlain(lib, text);
    case _ =>
  }

  lemma BasePlain(lib: TextLibrary, text: string, c: Chunk, lo: int, hi: int)
    requires Lawful(lib) && Legal(c, lo, hi) && SpellsBase(lib, text, c)
    ensures '/' !in text
  {
    if c.Range? || c.RangeStep? {
      RangeParses(lib, text, c.first, c.last, lo, hi);
    } else if c.Single? || c.FromStep? {
      NumeralPlain(lib, text);
    }
  }

  // A base, a slash and a step: how the code reads such a chunk.
  lemma SteppedReads(lib: TextLibrary, text: string, c: Chunk, lo: int, hi: int)
    requires Lawful(lib) && Legal(c, lo, hi) && Spells(lib, text, c) && !(c.Star? || c.Range? || c.Single?)
    ensures '/' in text && text != "" && text != "*"
    ensures SpellsBase(lib, Before(text, '/'), c)
    ensures IsDigits(lib, After(text, '/')) && lib.toInt(After(text, '/')) == Some(c.step as int)
  {
    var i :| 0 <= i < |text| && SpellsStepAt(lib, text, c, i);
    BasePlain(lib, text[..i], c, lo, hi);
    Cut(text, '/', i);
    NumeralPlain(lib, text[i + 1..]);
    assert text[i] == '/';
  }

  lemma StarStepMatches(lib: TextLibrary, text: string, step: nat, lo: int, hi: int, value: int)
    requires Lawful(lib) && step > 0
    requires '/' in text && text != "" && text != "*" && Before(text, '/') == "*"
    requires IsDigits(lib, After(text, '/')) && lib.toInt(After(text, '/')) == Some(step as int)
    ensures ValidateChunk(lib, text, lo, hi) == Value(None)
    ensures MatchesChunk(lib, value, text, lo, hi) == Value((value - lo) % step == 0)
  {
  }

  lemma RangeStepMatches(lib: TextLibrary, text: string, first: nat, last: nat, step: nat, lo: int, hi: int, value: int)
    requires Lawful(lib) && step > 0 && lo <= first <= last <= hi
    requires '/' in text && text != "" && text != "*" && SpellsRange(lib, Before(text, '/'), first, last)
    requires IsDigits(lib, After(text, '/')) && lib.toInt(After(text, '/')) == Some(step as int)
    ensures ValidateChunk(lib, text, lo, hi) == Value(None)
    ensures MatchesChunk(lib, value, text, lo, hi) == Value(first <= value <= last && (value - first) % step == 0)
  {
    RangeParses(lib, Before(text, '/'), first, last, lo, hi);
  }

  lemma FromStepMatches(lib: TextLibrary, text: string, at: nat, step: nat, lo: int, hi: int, value: int)
    requires Lawful(lib) && step > 0 && lo <= at <= hi
    requires '/' in text && text != "" && text != "*" && Numeral(lib, Before(text, '/')) == Some(at)
    requires IsDigits(lib, After(text, '/')) && lib.toInt(After(text, '/')) == Some(step as int)
    ensures ValidateChunk(lib, text, lo, hi) == Value(None)
    ensures MatchesChunk(lib, value, text, lo, hi) == Value(value >= at && (value - at) % step == 0)
  {
    NumeralPlain(lib, Before(text, '/'));
  }

  lemma SteppedMatches(lib: TextLibrary, text: string, c: Chunk, lo: int, hi: int, value: int)
    requires Lawful(lib) && Legal(c, lo, hi) && Spells(lib, text, c) && !(c.Star? || c.Range? || c.Single?)
    ensures ValidateChunk(lib, text, lo, hi) == Value(None)
    ensures MatchesChunk(lib, value, text, lo, hi) == Value(Denotes(c, lo, hi, value))
  {
    SteppedReads(lib, text, c, lo, hi);
    if c.StarStep? {
      StarStepMatches(lib, text, c.step, lo, hi, value);
    } else if c.RangeStep? {
      RangeStepMatches(lib, text, c.first, c.last, c.step, lo, hi, value);
    } else {
      FromStepMatches(lib, text, c.at, c.step, lo, hi, value);
    }
  }

  lemma LegalMatches(lib: TextLibrary, text: string, c: Chunk, lo: int, hi: int, value: int)
    requires Lawful(lib) && Legal(c, lo, hi) && Spells(lib, text, c)
    ensures ValidateChunk(lib, text, lo, hi) == Value(None)
    ensures MatchesChunk(lib, value, text, lo, hi) == Value(Denotes(c, lo, hi, value))
  {
    if c.Star? || c.Range? || c.Single? {
      BaseMatches(lib, text, c, lo, hi, value);
    } else {
      SteppedMatches(lib, text, c, lo, hi, value);
    }
  }

  lemma ValidUnstepped(lib: TextLibrary, text: string, lo: int, hi: int) returns (c: Chunk)
    requires Lawful(lib) && '/' !in text && text != "*"
    requires ValidateChunk(lib, text, lo, hi) == Value(None)
    ensures (c.Range? || c.Single?) && Legal(c, lo, hi) && SpellsBase(lib, text, c)
  {
    if '-' in text {
      ParsedRange(lib, text, lo, hi);
      var range := ParseRange(lib, text, lo, hi).value.value;
      c := Range(range.0, range.1);
    } else {
      IntIsNumeral(lib, text);
      c := Single(Numeral(lib, text).value);
    }
  }

  lemma ValidIsLegal(lib: TextLibrary, text: string, lo: int, hi: int)
    requires Lawful(lib) && ValidateChunk(lib, text, lo, hi) == Value(None)
    ensures IsLegal(lib, text, lo, hi)
  {
    if text == "*" {
      assert Spells(lib, text, Star);
    } else if '/' in text {
      var base, step := Before(text, '/'), After(text, '/');
      IndexOfIs(text, '/');
      IntIsNumeral(lib, step);
      var n := Numeral(lib, step).value;
      var at := IndexOf(text, '/');
      assert text[..at] == base && text[at + 1..] == step && text[at] == '/';
      if base == "*" {
        assert SpellsStepAt(lib, text, StarStep(n), at);
        assert Legal(StarStep(n), lo, hi) && Spells(lib, text, StarStep(n));
      } else {
        var c := ValidUnstepped(lib, base, lo, hi);
        var stepped := if c.Range? then RangeStep(c.first, c.last, n) else FromStep(c.at, n);
        assert SpellsStepAt(lib, text, stepped, at);
        assert Legal(stepped, lo, hi) && Spells(lib, text, stepped);
      }
    } else {
      var c := ValidUnstepped(lib, text, lo, hi);
      assert Spells(lib, text, c);
    }
  }

  // ---------- fields ----------

  lemma StripsToItself(lib: TextLibrary, text: string)
    requires NoSpace(lib, text)
    ensures Strip(lib, text) == text
  {
  }

  lemma {:induction false} ChunksValid(lib: TextLibrary, chunks: seq<string>, lo: int, hi: int)
    requires Lawful(lib) && forall i :: 0 <= i < |chunks| ==> NoSpace(lib, chunks[i])
    ensures ValidateChunks(lib, chunks, lo, hi) == Value(None) <==>
            forall i :: 0 <= i < |chunks| ==> IsLegal(lib, chunks[i], lo, hi)
  {
    if chunks != [] {
      StripsToItself(lib, chunks[0]);
      ChunksValid(lib, chunks[1..], lo, hi);
      if IsLegal(lib, chunks[0], lo, hi) {
        var c :| Legal(c, lo, hi) && Spells(lib, chunks[0], c);
        LegalMatches(lib, chunks[0], c, lo, hi, 0);
      } else if ValidateChunk(lib, chunks[0], lo, hi) == Value(None) {
        ValidIsLegal(lib, chunks[0], lo, hi);
      }
      assert forall i :: 0 < i < |chunks| ==> chunks[i] == chunks[1..][i - 1];
    }
  }

  lemma {:induction false} ChunksMatch(lib: TextLibrary, chunks: seq<string>, lo: int, hi: int, value: int)
    requires Lawful(lib) && forall i :: 0 <= i < |chunks| ==> NoSpace(lib, chunks[i]) && IsLegal(lib, chunks[i], lo, hi)
    ensures MatchesChunks(lib, value, chunks, lo, hi) ==
            Value(exists i :: 0 <= i < |chunks| && ChunkAllows(lib, chunks[i], lo, hi, value))
  {
    if chunks != [] {
      StripsToItself(lib, chunks[0]);
      var c :| Legal(c, lo, hi) && Spells(lib, chunks[0], c);
      LegalMatches(lib, chunks[0], c, lo, hi, value);
      ChunksMatch(lib, chunks[1..], lo, hi, value);
      if ChunkAllows(lib, chunks[0], lo, hi, value) {
        var d :| Legal(d, lo, hi) && Spells(lib, chunks[0], d) && Denotes(d, lo, hi, value);
        LegalMatches(lib, chunks[0], d, lo, hi, value);
      }
      assert forall i :: 0 < i < |chunks| ==> chunks[i] == chunks[1..][i - 1];
    }
  }

  lemma SplitNoSpace(lib: TextLibrary, token: string)
    requires NoSpace(lib, token)
    ensures forall i :: 0 <= i < |Split(token, ',')| ==> NoSpace(lib, Split(token, ',')[i])
  {
    forall i, k | 0 <= i < |Split(token, ',')| && 0 <= k < |Split(token, ',')[i]|
      ensures !lib.isSpace(Split(token, ',')[i][k])
    {
      assert Split(token, ',')[i][k] in token;
    }
  }

  // Validation accepts exactly the comma-separated lists of legal chunks.
  lemma FieldValid(lib: TextLibrary, token: string, lo: int, hi: int)
    requires Lawful(lib) && NoSpace(lib, token)
    ensures ValidateField(lib, token, lo, hi) == Value(None) <==> IsField(lib, token, lo, hi)
  {
    StripsToItself(lib, token);
    SplitNoSpace(lib, token);
    ChunksValid(lib, Split(token, ','), lo, hi);
  }

  // On a valid field matching never raises, and matches exactly the union of what the chunks
  // denote.
  lemma FieldMatches(lib: TextLibrary, token: string, lo: int, hi: int, value: int)
    requires Lawful(lib) && NoSpace(lib, token) && ValidateField(lib, token, lo, hi) == Value(None)
    ensures MatchesField(lib, value, token, lo, hi) == Value(Allows(lib, token, lo, hi, value))
  {
    FieldValid(lib, token, lo, hi);
    SplitNoSpace(lib, token);
    ChunksMatch(lib, Split(token, ','), lo, hi, value);
  }

  lemma DenotesSome(c: Chunk, lo: int, hi: int) returns (value: int)
    requires lo <= hi && Legal(c, lo, hi)
    ensures lo <= value <= hi && Denotes(c, lo, hi, value)
  {
    value := if c.Range? || c.RangeStep? then c.first else if c.Single? || c.FromStep? then c.at else lo;
  }

  // A valid field matches some value in its range.
  lemma FieldMatchesSome(lib: TextLibrary, token: string, lo: int, hi: int)
    requires Lawful(lib) && lo <= hi && NoSpace(lib, token) && ValidateField(lib, token, lo, hi) == Value(None)
    ensures exists value :: lo <= value <= hi && MatchesField(lib, value, token, lo, hi) == Value(true)
  {
    FieldValid(lib, token, lo, hi);
    var chunk := Split(token, ',')[0];
    assert IsLegal(lib, chunk, lo, hi);
    var c :| Legal(c, lo, hi) && Spells(lib, chunk, c);
    var value := DenotesSome(c, lo, hi);
    assert ChunkAllows(lib, chunk, lo, hi, value);
    FieldMatches(lib, token, lo, hi, value);
  }

  lemma {:induction false} ValidFields(lib: TextLibrary, fields: seq<string>, k: nat)
    requires |fields| == 5 && k <= 5
    ensures ValidateFrom(lib, fields, k) == Value(None) <==>
            forall i :: k <= i < 5 ==> ValidateField(lib, fields[i], LOWEST[i], HIGHEST[i]) == Value(None)
    decreases 5 - k
  {
    if k < 5 {
      ValidFields(lib, fields, k + 1);
    }
  }

  ghost predicate LegalAt(lib: TextLibrary, fields: seq<string>, i: nat)
    requires |fields| == 5 && i < 5
  {
    IsField(lib, fields[i], LOWEST[i], HIGHEST[i])
  }

  // Five legal fields.
  ghost predicate IsPlan(lib: TextLibrary, fields: seq<string>) {
    |fields| == 5 && forall i :: 0 <= i < 5 ==> LegalAt(lib, fields, i)
  }

  lemma LegalAtIff(lib: TextLibrary, fields: seq<string>, i: nat)
    requires Lawful(lib) && |fields| == 5 && i < 5 && NoSpace(lib, fields[i])
    ensures LegalAt(lib, fields, i) <==> ValidateField(lib, fields[i], LOWEST[i], HIGHEST[i]) == Value(None)
  {
    FieldValid(lib, fields[i], LOWEST[i], HIGHEST[i]);
  }

  lemma PlanValid(lib: TextLibrary, fields: seq<string>)
    requires Lawful(lib) && |fields| == 5 && forall i :: 0 <= i < 5 ==> NoSpace(lib, fields[i])
    ensures ValidateFrom(lib, fields, 0) == Value(None) <==> IsPlan(lib, fields)
  {
    ValidFields(lib, fields, 0);
    forall i: nat | i < 5
      ensures LegalAt(lib, fields, i) <==> ValidateField(lib, fields[i], LOWEST[i], HIGHEST[i]) == Value(None)
    {
      LegalAtIff(lib, fields, i);
    }
  }

  // An expression is accepted exactly if it has five words, each a legal field.
  lemma ExpressionValid(lib: TextLibrary, expr: string)
    requires Lawful(lib)
    ensures ParseCron(lib, expr) == Value(None) <==> IsPlan(lib, Fields(lib, expr))
  {
    if |Fields(lib, expr)| == 5 {
      PlanValid(lib, Fields(lib, expr));
    }
  }

  // ---------- when validation raises ----------

  // Digits that are no numeral, or too many of them: isdigit() lets them through to int(), which
  // raises.
  predicate Odd(lib: TextLibrary, text: string) {
    IsDigits(lib, text) && Numeral(lib, text).None?
  }

  predicate NumeralIn(lib: TextLibrary, text: string, lo: int, hi: int) {
    Numeral(lib, text).Some? && lo <= Numeral(lib, text).value <= hi
  }

  // A value that is odd, or a range whose left end is odd, or in range with an odd right end.
  predicate BaseRaises(lib: TextLibrary, text: string, lo: int, hi: int) {
    if '-' in text then
      Odd(lib, Before(text, '-')) || (NumeralIn(lib, Before(text, '-'), lo, hi) && Odd(lib, After(text, '-')))
    else Odd(lib, text)
  }

  // An odd step, or a positive one after a base that raises.
  predicate ChunkRaises(lib: TextLibrary, chunk: string, lo: int, hi: int) {
    if '/' in chunk then
      var base, step := Before(chunk, '/'), After(chunk, '/');
      Odd(lib, step) || (Numeral(lib, step).Some? && Numeral(lib, step).value > 0 && BaseRaises(lib, base, lo, hi))
    else BaseRaises(lib, chunk, lo, hi)
  }

  lemma IntInRangeIs(lib: TextLibrary, text: string, lo: int, hi: int)
    requires Lawful(lib)
    ensures IsIntInRange(lib, text, lo, hi).Raises? <==> Odd(lib, text)
    ensures IsIntInRange(lib, text, lo, hi) == Value(true) <==> NumeralIn(lib, text, lo, hi)
  {
    if Numeral(lib, text).Some? {
      NumeralPlain(lib, text);
    }
  }

  lemma BaseRaisesIs(lib: TextLibrary, text: string, lo: int, hi: int)
    requires Lawful(lib)
    ensures (if '-' in text then ValidateRange(lib, text, lo, hi) else ValidateValue(lib, text, lo, hi)).Raises?
       <==> BaseRaises(lib, text, lo, hi)
  {
    IntInRangeIs(lib, text, lo, hi);
    if '-' in text {
      IntInRangeIs(lib, Before(text, '-'), lo, hi);
      IntInRangeIs(lib, After(text, '-'), lo, hi);
    }
  }

  lemma StarNeverRaises(lib: TextLibrary, lo: int, hi: int)
    requires Lawful(lib)
    ensures !BaseRaises(lib, "*", lo, hi)
  {
    assert '*' in PUNCTUATION;
    assert !lib.isDigit("*"[0]);
  }

  lemma ChunkRaisesIs(lib: TextLibrary, chunk: string, lo: int, hi: int)
    requires Lawful(lib)
    ensures ValidateChunk(lib, chunk, lo, hi).Raises? <==> ChunkRaises(lib, chunk, lo, hi)
  {
    StarNeverRaises(lib, lo, hi);
    if '/' in chunk {
      var base, step := Before(chunk, '/'), After(chunk, '/');
      BaseRaisesIs(lib, base, lo, hi);
      if Numeral(lib, step).Some? {
        NumeralPlain(lib, step);
      }
    } else {
      BaseRaisesIs(lib, chunk, lo, hi);
    }
  }

  lemma LegalIsValid(lib: TextLibrary, text: string, lo: int, hi: int)
    requires Lawful(lib)
    ensures ValidateChunk(lib, text, lo, hi) == Value(None) <==> IsLegal(lib, text, lo, hi)
  {
    if IsLegal(lib, text, lo, hi) {
      var c :| Legal(c, lo, hi) && Spells(lib, text, c);
      LegalMatches(lib, text, c, lo, hi, 0);
    } else if ValidateChunk(lib, text, lo, hi) == Value(None) {
      ValidIsLegal(lib, text, lo, hi);
    }
  }

  // Chunk i raises, and every chunk before it is legal.
  ghost predicate RaisesAt(lib: TextLibrary, chunks: seq<string>, lo: int, hi: int, i: int) {
    && 0 <= i < |chunks| && ChunkRaises(lib, Strip(lib, chunks[i]), lo, hi)
    && forall j :: 0 <= j < i ==> IsLegal(lib, Strip(lib, chunks[j]), lo, hi)
  }

  lemma {:induction false} ChunksRaiseIs(lib: TextLibrary, chunks: seq<string>, lo: int, hi: int)
    requires Lawful(lib)
    ensures ValidateChunks(lib, chunks, lo, hi).Raises? <==> exists i :: RaisesAt(lib, chunks, lo, hi, i)
  {
    if chunks != [] {
      var first, rest := Strip(lib, chunks[0]), chunks[1..];
      ChunkRaisesIs(lib, first, lo, hi);
      LegalIsValid(lib, first, lo, hi);
      ChunksRaiseIs(lib, rest, lo, hi);
      if ChunkRaises(lib, first, lo, hi) {
        assert RaisesAt(lib, chunks, lo, hi, 0);
      }
      if i :| RaisesAt(lib, rest, lo, hi, i) {
        if IsLegal(lib, first, lo, hi) {
          assert forall j :: 0 < j <= i ==> chunks[j] == rest[j - 1];
          assert RaisesAt(lib, chunks, lo, hi, i + 1);
        }
      }
      if i :| RaisesAt(lib, chunks, lo, hi, i) && i > 0 {
        assert IsLegal(lib, Strip(lib, chunks[0]), lo, hi);
        assert forall j :: 0 <= j < |rest| ==> rest[j] == chunks[j + 1];
        assert RaisesAt(lib, rest, lo, hi, i - 1);
      }
    }
  }

  function ChunksOf(lib: TextLibrary, token: string): seq<string> {
    Split(Strip(lib, token), ',')
  }

  // Validating a token raises exactly if some chunk does, all chunks before it being legal.
  lemma FieldRaisesIff(lib: TextLibrary, token: string, lo: int, hi: int)
    requires Lawful(lib)
    ensures ValidateField(lib, token, lo, hi).Raises? <==>
            exists i :: RaisesAt(lib, ChunksOf(lib, token), lo, hi, i)
  {
    var chunks := ChunksOf(lib, token);
    ChunksRaiseIs(lib, chunks, lo, hi);
    if Strip(lib, token) == "" {
      assert chunks == [""] && Strip(lib, "") == "";
      assert ValidateChunks(lib, chunks, lo, hi) == Value(Some(EmptyChunk));
      assert ValidateField(lib, token, lo, hi) == Value(Some(EmptyField));
    } else {
      assert ValidateField(lib, token, lo, hi) == ValidateChunks(lib, chunks, lo, hi);
    }
  }

  // ---------- which error is reported ----------

  // A chunk is refused as empty, for a step that is no positive numeral, or for its base: a range
  // if it has a dash, else a value.
  lemma ChunkErrorIs(lib: TextLibrary, chunk: string, lo: int, hi: int, e: FieldError)
    requires Lawful(lib) && ValidateChunk(lib, chunk, lo, hi) == Value(Some(e))
    ensures var base := if '/' in chunk then Before(chunk, '/') else chunk;
            var badStep := '/' in chunk && !(Numeral(lib, After(chunk, '/')).Some? && Numeral(lib, After(chunk, '/')).value > 0);
            e == if chunk == "" then EmptyChunk
                 else if badStep then BadStep
                 else if '-' in base then BadRange(base)
                 else OutOfRange(base)
  {
    if '/' in chunk && Numeral(lib, After(chunk, '/')).Some? {
      NumeralPlain(lib, After(chunk, '/'));
    }
  }

  // Chunk i is refused with this error, and every chunk before it is legal.
  ghost predicate RefusedAt(lib: TextLibrary, chunks: seq<string>, lo: int, hi: int, e: FieldError, i: int) {
    && 0 <= i < |chunks| && ValidateChunk(lib, Strip(lib, chunks[i]), lo, hi) == Value(Some(e))
    && forall j :: 0 <= j < i ==> IsLegal(lib, Strip(lib, chunks[j]), lo, hi)
  }

  lemma {:induction false} ChunksErrorIs(lib: TextLibrary, chunks: seq<string>, lo: int, hi: int, e: FieldError)
    requires Lawful(lib) && ValidateChunks(lib, chunks, lo, hi) == Value(Some(e))
    ensures exists i :: RefusedAt(lib, chunks, lo, hi, e, i)
  {
    LegalIsValid(lib, Strip(lib, chunks[0]), lo, hi);
    if ValidateChunk(lib, Strip(lib, chunks[0]), lo, hi) == Value(None) {
      ChunksErrorIs(lib, chunks[1..], lo, hi, e);
      var i :| RefusedAt(lib, chunks[1..], lo, hi, e, i);
      assert forall j :: 0 < j <= i ==> chunks[j] == chunks[1..][j - 1];
      assert RefusedAt(lib, chunks, lo, hi, e, i + 1);
    } else {
      assert RefusedAt(lib, chunks, lo, hi, e, 0);
    }
  }

  // A field is refused as empty if it is blank, else for its first chunk that is not legal.
  lemma FieldErrorIs(lib: TextLibrary, token: string, lo: int, hi: int, e: FieldError)
    requires Lawful(lib) && ValidateField(lib, token, lo, hi) == Value(Some(e))
    ensures if Strip(lib, token) == "" then e == EmptyField
            else exists i :: RefusedAt(lib, ChunksOf(lib, token), lo, hi, e, i)
  {
    if Strip(lib, token) != "" {
      ChunksErrorIs(lib, ChunksOf(lib, token), lo, hi, e);
    }
  }

  lemma {:induction false} FirstBadField(lib: TextLibrary, fields: seq<string>, k: nat, e: CronError)
    requires |fields| == 5 && k <= 5 && ValidateFrom(lib, fields, k) == Value(Some(e))
    ensures e.BadField? && k <= e.index < 5
            && ValidateField(lib, fields[e.index], LOWEST[e.index], HIGHEST[e.index]) == Value(Some(e.error))
            && forall i :: k <= i < e.index ==> ValidateField(lib, fields[i], LOWEST[i], HIGHEST[i]) == Value(None)
    decreases 5 - k
  {
    if ValidateField(lib, fields[k], LOWEST[k], HIGHEST[k]) == Value(None) {
      FirstBadField(lib, fields, k + 1, e);
    }
  }

  // An expression is refused for the number of its words, else for its first field that is.
  lemma ParseErrorIs(lib: TextLibrary, expr: string, e: CronError)
    requires ParseCron(lib, expr) == Value(Some(e))
    ensures var fields := Fields(lib, expr);
            if |fields| != 5 then e == WrongFieldCount
            else e.BadField? && e.index < 5
                 && ValidateField(lib, fields[e.index], LOWEST[e.index], HIGHEST[e.index]) == Value(Some(e.error))
                 && forall i :: 0 <= i < e.index ==> ValidateField(lib, fields[i], LOWEST[i], HIGHEST[i]) == Value(None)
  {
    if |Fields(lib, expr)| == 5 {
      FirstBadField(lib, Fields(lib, expr), 0, e);
    }
  }

  // ---------- what never raises ----------

  // Every digit in the text is a decimal, and no run of digits is too long.
  ghost predicate Clean(lib: TextLibrary, text: string) {
    && (forall k :: 0 <= k < |text| && lib.isDigit(text[k]) ==> lib.decimal(text[k]).Some?)
    && (forall i, j :: 0 <= i <= j <= |text| && IsDigits(lib, text[i..j]) ==> WithinLimit(lib, j - i))
  }

  lemma {:induction false} DigitsAreDecimals(lib: TextLibrary, text: string)
    requires text != "" && forall k :: 0 <= k < |text| ==> lib.decimal(text[k]).Some?
    ensures Decimals(lib, text).Some?
  {
    if |text| > 1 {
      DigitsAreDecimals(lib, text[..|text| - 1]);
    }
  }

  lemma CleanNumeral(lib: TextLibrary, text: string)
    requires Clean(lib, text) && IsDigits(lib, text)
    ensures Numeral(lib, text).Some?
  {
    DigitsAreDecimals(lib, text);
    assert text[0..|text|] == text;
  }

  lemma SameSlice(text: string, from: nat, to: nat, i: nat, j: nat)
    requires from <= to <= |text| && i <= j <= to - from
    ensures text[from..to][i..j] == text[from + i..from + j]
  {
    var a, b := text[from..to][i..j], text[from + i..from + j];
    assert |a| == |b| && forall k :: 0 <= k < |a| ==> a[k] == b[k];
  }

  lemma CleanPart(lib: TextLibrary, text: string, from: nat, to: nat)
    requires Clean(lib, text) && from <= to <= |text|
    ensures Clean(lib, text[from..to])
  {
    var part := text[from..to];
    forall i, j | 0 <= i <= j <= |part| && IsDigits(lib, part[i..j]) ensures WithinLimit(lib, j - i) {
      SameSlice(text, from, to, i, j);
      assert WithinLimit(lib, (from + j) - (from + i));
    }
  }

  lemma CleanParts(lib: TextLibrary, text: string, c: char)
    requires Clean(lib, text) && c in text
    ensures Clean(lib, Before(text, c)) && Clean(lib, After(text, c))
  {
    IndexOfIs(text, c);
    var n := IndexOf(text, c);
    CleanPart(lib, text, 0, n);
    CleanPart(lib, text, n + 1, |text|);
    assert text[0..n] == Before(text, c) && text[n + 1..|text|] == After(text, c);
  }

  lemma {:induction false} CleanSplit(lib: TextLibrary, text: string, c: char)
    requires Clean(lib, text)
    ensures forall i :: 0 <= i < |Split(text, c)| ==> Clean(lib, Split(text, c)[i])
    decreases |text|
  {
    IndexOfIs(text, c);
    if c in text {
      CleanParts(lib, text, c);
      CleanSplit(lib, After(text, c), c);
    }
  }

  lemma {:induction false} CleanStrip(lib: TextLibrary, text: string)
    requires Clean(lib, text)
    ensures Clean(lib, Strip(lib, text))
    decreases |text|
  {
    if text != "" {
      CleanPart(lib, text, 1, |text|);
      CleanPart(lib, text, 0, |text| - 1);
      assert text[1..|text|] == text[1..] && text[0..|text| - 1] == text[..|text| - 1];
      CleanStrip(lib, text[1..]);
      CleanStrip(lib, text[..|text| - 1]);
    }
  }

  lemma CleanConverts(lib: TextLibrary, text: string)
    requires Clean(lib, text)
    ensures !Odd(lib, text)
  {
    if IsDigits(lib, text) {
      CleanNumeral(lib, text);
    }
  }

  lemma CleanBase(lib: TextLibrary, text: string, lo: int, hi: int)
    requires Clean(lib, text)
    ensures !BaseRaises(lib, text, lo, hi)
  {
    CleanConverts(lib, text);
    if '-' in text {
      CleanParts(lib, text, '-');
      CleanConverts(lib, Before(text, '-'));
      CleanConverts(lib, After(text, '-'));
    }
  }

  lemma CleanChunk(lib: TextLibrary, chunk: string, lo: int, hi: int)
    requires Clean(lib, chunk)
    ensures !ChunkRaises(lib, chunk, lo, hi)
  {
    CleanBase(lib, chunk, lo, hi);
    if '/' in chunk {
      CleanParts(lib, chunk, '/');
      CleanBase(lib, Before(chunk, '/'), lo, hi);
      CleanConverts(lib, After(chunk, '/'));
    }
  }

  // Validation does not raise on a token whose digits are decimals, in runs within the limit.
  lemma CleanFieldValidates(lib: TextLibrary, token: string, lo: int, hi: int)
    requires Lawful(lib) && Clean(lib, token)
    ensures ValidateField(lib, token, lo, hi).Value?
  {
    CleanStrip(lib, token);
    CleanSplit(lib, Strip(lib, token), ',');
    FieldRaisesIff(lib, token, lo, hi);
    var chunks := ChunksOf(lib, token);
    forall i ensures !RaisesAt(lib, chunks, lo, hi, i) {
      if 0 <= i < |chunks| {
        CleanStrip(lib, chunks[i]);
        CleanChunk(lib, Strip(lib, chunks[i]), lo, hi);
      }
    }
  }

  lemma OddTokenRaises(lib: TextLibrary, token: string, lo: int, hi: int)
    requires Lawful(lib) && Odd(lib, token)
    ensures ValidateField(lib, token, lo, hi).Raises?
  {
    forall d | d in PUNCTUATION ensures d !in token {
    }
    assert ',' in PUNCTUATION && '*' in PUNCTUATION && '/' in PUNCTUATION && '-' in PUNCTUATION;
    assert Split(token, ',') == [token];
    StripsToItself(lib, token);
    assert token != "*" by {
      assert token[0] != '*';
    }
    assert ValidateChunk(lib, token, lo, hi).Raises?;
  }

  function Repeated(c: char, n: nat): string {
    seq(n, _ => c)
  }

  // It never raises exactly if the library knows no digits but decimals and sets them no limit.
  // Python does neither: a superscript two makes it raise, and so does a long enough numeral.
  lemma ValidationTotalIff(lib: TextLibrary, lo: int, hi: int)
    requires Lawful(lib)
    ensures (forall token :: ValidateField(lib, token, lo, hi).Value?)
       <==> (forall c :: lib.isDigit(c) ==> lib.decimal(c).Some? && lib.digitLimit.None?)
  {
    if forall token :: ValidateField(lib, token, lo, hi).Value? {
      forall c | lib.isDigit(c) ensures lib.decimal(c).Some? && lib.digitLimit.None? {
        var length := if lib.decimal(c).None? || lib.digitLimit.None? then 1 else lib.digitLimit.value + 1;
        if lib.decimal(c).None? || lib.digitLimit.Some? {
          assert Odd(lib, Repeated(c, length));
          OddTokenRaises(lib, Repeated(c, length), lo, hi);
        }
      }
    } else {
      var token :| ValidateField(lib, token, lo, hi).Raises?;
      if forall c :: lib.isDigit(c) ==> lib.decimal(c).Some? && lib.digitLimit.None? {
        forall i, j | 0 <= i <= j <= |token| && IsDigits(lib, token[i..j]) ensures WithinLimit(lib, j - i) {
          assert lib.isDigit(token[i..j][0]);
        }
        CleanFieldValidates(lib, token, lo, hi);
      }
    }
  }

  // ---------- a library with such digits ----------

  const SUPERSCRIPT_TWO := '\U{B2}'

  function PlainDecimal(c: char): Option<nat> {
    if '0' <= c <= '9' then Some(c as int - '0' as int) else None
  }

  function WithoutInt(): TextLibrary {
    TextLibrary(c => c == ' ', c => '0' <= c <= '9' || c == SUPERSCRIPT_TWO, PlainDecimal, _ => None, Some(DEFAULT_LIMIT))
  }

  // ASCII digits and blanks, with the superscript two Python also counts as a digit.
  function PlainLibrary(): TextLibrary {
    WithoutInt().(toInt := text =>
      match Numeral(WithoutInt(), text) case None => None case Some(n) => Some(n as int))
  }

  lemma {:induction false} SameDecimals(text: string)
    ensures Decimals(PlainLibrary(), text) == Decimals(WithoutInt(), text)
  {
    if |text| > 1 {
      SameDecimals(text[..|text| - 1]);
    }
  }

  lemma PlainIsLawful()
    ensures Lawful(PlainLibrary())
  {
    forall text | IsDigits(PlainLibrary(), text)
      ensures PlainLibrary().toInt(text) ==
              match Numeral(PlainLibrary(), text) case None => None case Some(n) => Some(n as int)
    {
      SameDecimals(text);
    }
  }

  // Validating a superscript two raises in this lawful library.
  lemma SuperscriptRaises(lo: int, hi: int)
    ensures Lawful(PlainLibrary())
    ensures ValidateField(PlainLibrary(), [SUPERSCRIPT_TWO], lo, hi).Raises?
  {
    PlainIsLawful();
    OddTokenRaises(PlainLibrary(), [SUPERSCRIPT_TWO], lo, hi);
  }

  // And so does a numeral of decimals only, with one digit more than the limit.
  lemma LongNumeralRaises(lo: int, hi: int)
    ensures var token := Repeated('1', DEFAULT_LIMIT + 1);
            && Lawful(PlainLibrary()) && Decimals(PlainLibrary(), token).Some?
            && ValidateField(PlainLibrary(), token, lo, hi).Raises?
  {
    var token := Repeated('1', DEFAULT_LIMIT + 1);
    PlainIsLawful();
    DigitsAreDecimals(PlainLibrary(), token);
    OddTokenRaises(PlainLibrary(), token, lo, hi);
  }
}
