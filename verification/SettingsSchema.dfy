/** Declared settings keys and the text codec shared by environment variables and override rows. */
module SettingsSchema {
  import opened Text

  datatype Scope = Deployment | Workspace | Member

  datatype Floor = Min | Union | Subset | And

  datatype ValueType = StrType | IntType | BoolType | ListType

  /** A value as the registry and the resolved mapping store it. */
  datatype Value = Str(text: string) | Int(number: int) | Bool(flag: bool) | List(items: seq<string>)

  predicate MatchesType(t: ValueType, v: Value) {
    match t
    case StrType => v.Str?
    case IntType => v.Int?
    case BoolType => v.Bool?
    case ListType => v.List?
  }

  function FloorType(floor: Floor): ValueType {
    match floor
    case Min => IntType
    case Union => ListType
    case Subset => ListType
    case And => BoolType
  }

  datatype KeySpec = KeySpec(
    valueType: ValueType, scope: Scope, floor: Option<Floor>, explicitPerWorkspace: bool,
    default: Value, choices: Option<seq<string>>)
  {
    /** What `__post_init__` demands of a declaration. */
    predicate Valid() {
      && MatchesType(valueType, default)
      && (floor.Some? ==> FloorType(floor.value) == valueType)
      && (choices.Some? ==> valueType.StrType? && default.text in choices.value)
    }

    predicate Chooses(v: Value) {
      choices.None? || (v.Str? && v.text in choices.value)
    }
  }

  /** The registry: one declaration for each key. */
  type Registry = map<string, KeySpec>

  predicate ValidRegistry(registry: Registry) {
    forall key <- registry :: registry[key].Valid()
  }

  /** The ASCII characters that `strip` removes: tab to carriage return, the four separators and the space. */
  predicate IsSpace(c: char) { c == ' ' || 9 <= c as int <= 13 || 28 <= c as int <= 31 }

  function StripLeft(s: string): string {
    if s != "" && IsSpace(s[0]) then StripLeft(s[1..]) else s
  }

  function StripRight(s: string): string {
    if s != "" && IsSpace(s[|s| - 1]) then StripRight(s[..|s| - 1]) else s
  }

  /** `text.strip()` */
  function Strip(s: string): string { StripRight(StripLeft(s)) }

  predicate Trimmed(s: string) {
    s == "" || (!IsSpace(s[0]) && !IsSpace(s[|s| - 1]))
  }

  lemma StripOfTrimmed(s: string)
    requires Trimmed(s)
    ensures Strip(s) == s
  {
  }

  lemma {:induction false} StripLeftFacts(s: string)
    ensures StripLeft(s) == "" || !IsSpace(StripLeft(s)[0])
    ensures forall c <- StripLeft(s) :: c in s
  {
    if s != "" && IsSpace(s[0]) {
      StripLeftFacts(s[1..]);
    }
  }

  lemma {:induction false} StripRightFacts(s: string)
    requires s == "" || !IsSpace(s[0])
    ensures Trimmed(StripRight(s))
    ensures forall c <- StripRight(s) :: c in s
  {
    if s != "" && IsSpace(s[|s| - 1]) {
      assert s[..|s| - 1] == "" || s[..|s| - 1][0] == s[0];
      StripRightFacts(s[..|s| - 1]);
    }
  }

  /** Stripping leaves a text with no space at either end and no character that was not there. */
  lemma StripFacts(s: string)
    ensures Trimmed(Strip(s))
    ensures forall c <- Strip(s) :: c in s
  {
    StripLeftFacts(s);
    StripRightFacts(StripLeft(s));
  }

  predicate AllSpace(s: string) { forall c <- s :: IsSpace(c) }

  lemma {:induction false} StripLeftOfPadded(p: string, s: string)
    requires AllSpace(p)
    ensures StripLeft(p + s) == StripLeft(s)
  {
    if p == "" {
      assert p + s == s;
    } else {
      assert p[0] in p && forall c <- p[1..] :: c in p;
      assert (p + s)[1..] == p[1..] + s;
      StripLeftOfPadded(p[1..], s);
    }
  }

  lemma {:induction false} StripRightOfPadded(s: string, q: string)
    requires AllSpace(q)
    ensures StripRight(s + q) == StripRight(s)
    decreases |q|
  {
    if q == "" {
      assert s + q == s;
    } else {
      assert q[|q| - 1] in q && forall c <- q[..|q| - 1] :: c in q;
      assert (s + q)[..|s + q| - 1] == s + q[..|q| - 1];
      StripRightOfPadded(s, q[..|q| - 1]);
    }
  }

  /** Stripping takes spaces off both ends and nothing else. */
  lemma StripOfPadded(p: string, s: string, q: string)
    requires AllSpace(p) && AllSpace(q) && Trimmed(s)
    ensures Strip(p + s + q) == s
  {
    assert p + s + q == p + (s + q);
    StripLeftOfPadded(p, s + q);
    if s == "" {
      assert s + q == q;
      StripRightOfPadded("", StripLeft(q)) by { StripLeftFacts(q); }
      assert "" + StripLeft(q) == StripLeft(q);
    } else {
      assert (s + q)[0] == s[0];
      StripRightOfPadded(s, q);
    }
  }

  function Lower(s: string): string {
    seq(|s|, i requires 0 <= i < |s| => if 'A' <= s[i] <= 'Z' then s[i] + 32 as char else s[i])
  }

  predicate IsDigit(c: char) { '0' <= c <= '9' }

  function DigitOf(c: char): (d: nat)
    requires IsDigit(c)
  {
    c as int - '0' as int
  }

  function DigitsValue(s: string): int
    requires forall i :: 0 <= i < |s| ==> IsDigit(s[i])
  {
    if s == "" then 0 else 10 * DigitsValue(s[..|s| - 1]) + DigitOf(s[|s| - 1])
  }

  predicate IsDigits(s: string) { s != "" && forall i :: 0 <= i < |s| ==> IsDigit(s[i]) }

  /** `int(text)` on plain decimal spellings. */
  function ParseInt(s: string): Option<int> {
    if IsDigits(s) then Some(DigitsValue(s))
    else if s != "" && s[0] == '-' && IsDigits(s[1..]) then Some(-DigitsValue(s[1..]))
    else if s != "" && s[0] == '+' && IsDigits(s[1..]) then Some(DigitsValue(s[1..]))
    else None
  }

  function Digits(n: nat): (s: string)
    ensures IsDigits(s)
  {
    var last := [(n % 10 + '0' as int) as char];
    if n < 10 then last else Digits(n / 10) + last
  }

  /** `str(n)` */
  function Decimal(n: int): string {
    if n < 0 then "-" + Digits(-n) else Digits(n)
  }

  lemma {:induction false} DigitsValueOfDigits(n: nat)
    ensures DigitsValue(Digits(n)) == n
  {
    var s := Digits(n);
    if n >= 10 {
      DigitsValueOfDigits(n / 10);
      assert s[..|s| - 1] == Digits(n / 10);
    } else {
      assert s[..|s| - 1] == "" && DigitsValue("") == 0;
    }
  }

  lemma ParseOfDigits(digits: string)
    requires IsDigits(digits)
    ensures ParseInt(Strip(digits)) == Some(DigitsValue(digits))
    ensures ParseInt(Strip("-" + digits)) == Some(-DigitsValue(digits))
  {
    assert IsDigit(digits[0]) && IsDigit(digits[|digits| - 1]);
    StripOfTrimmed(digits);
    var negative := "-" + digits;
    assert negative[1..] == digits && negative[0] == '-' && negative[|negative| - 1] == digits[|digits| - 1];
    StripOfTrimmed(negative);
  }

  lemma IntRoundTrip(n: int)
    ensures ParseInt(Strip(Decimal(n))) == Some(n)
  {
    var size: nat := if n < 0 then -n else n;
    DigitsValueOfDigits(size);
    ParseOfDigits(Digits(size));
  }

  const TRUE_WORDS := {"1", "true", "yes", "on"}
  const FALSE_WORDS := {"0", "false", "no", "off"}

  function ParseBool(s: string): Option<bool> {
    var word := Lower(Strip(s));
    if word in TRUE_WORDS then Some(true) else if word in FALSE_WORDS then Some(false) else None
  }

  /** The text is the lower-case word, with any of its letters in upper case. */
  predicate Spells(text: string, word: string) {
    && |text| == |word|
    && forall i | 0 <= i < |word| ::
         text[i] == word[i] || ('a' <= word[i] <= 'z' && text[i] as int == word[i] as int - 32)
  }

  predicate IsLowerWord(word: string) { forall c <- word :: !('A' <= c <= 'Z') && c as int < 128 }

  lemma SpellsByCase(text: string, word: string)
    requires IsLowerWord(word)
    ensures Spells(text, word) <==> Lower(text) == word
  {
    if Spells(text, word) {
      forall i | 0 <= i < |word| ensures Lower(text)[i] == word[i] { assert word[i] in word; }
    }
    if Lower(text) == word {
      forall i | 0 <= i < |word|
        ensures text[i] == word[i] || ('a' <= word[i] <= 'z' && text[i] as int == word[i] as int - 32)
      {
        assert word[i] == Lower(text)[i];
      }
    }
  }

  predicate IsTrueText(text: string) { exists word <- {"1", "true", "yes", "on"} :: Spells(text, word) }

  predicate IsFalseText(text: string) { exists word <- {"0", "false", "no", "off"} :: Spells(text, word) }

  lemma TextsByCase(text: string)
    ensures IsTrueText(text) <==> Lower(text) in {"1", "true", "yes", "on"}
    ensures IsFalseText(text) <==> Lower(text) in {"0", "false", "no", "off"}
  {
    forall word | word in {"1", "true", "yes", "on", "0", "false", "no", "off"}
      ensures Spells(text, word) <==> Lower(text) == word
    {
      SpellsByCase(text, word);
    }
    if Lower(text) in {"1", "true", "yes", "on", "0", "false", "no", "off"} { assert Spells(text, Lower(text)); }
  }

  /** The spellings of a flag: eight words, in any case, between any spaces. */
  lemma BoolSpellings(p: string, text: string, q: string)
    requires AllSpace(p) && AllSpace(q) && Trimmed(text)
    ensures IsTrueText(text) ==> ParseBool(p + text + q) == Some(true)
    ensures IsFalseText(text) ==> ParseBool(p + text + q) == Some(false)
    ensures !IsTrueText(text) && !IsFalseText(text) ==> ParseBool(p + text + q) == None
  {
    StripOfPadded(p, text, q);
    WordsDiffer(Lower(text));
    TextsByCase(text);
  }

  lemma WordsDiffer(word: string)
    ensures !(word in TRUE_WORDS && word in FALSE_WORDS)
  {
    assert "no"[0] != "on"[0] && "off"[1] != "on"[1];
  }

  function Signed(negative: bool, n: int): int { if negative then -n else n }

  /** A number is read between any spaces, with either sign. */
  lemma SignedSpelling(p: string, sign: char, digits: string, q: string)
    requires AllSpace(p) && AllSpace(q) && IsDigits(digits) && sign in {'+', '-'}
    ensures ParseInt(Strip(p + ([sign] + digits) + q)) == Some(Signed(sign == '-', DigitsValue(digits)))
  {
    var signed := [sign] + digits;
    assert signed[0] == sign && signed[1..] == digits && !IsDigits(signed);
    assert IsDigit(digits[|digits| - 1]) && signed[|signed| - 1] == digits[|digits| - 1];
    StripOfPadded(p, signed, q);
  }

  /** Without a sign it is the digits themselves. */
  lemma UnsignedSpelling(p: string, digits: string, q: string)
    requires AllSpace(p) && AllSpace(q) && IsDigits(digits)
    ensures ParseInt(Strip(p + digits + q)) == Some(DigitsValue(digits))
  {
    assert IsDigit(digits[0]) && IsDigit(digits[|digits| - 1]);
    assert Trimmed(digits);
    StripOfPadded(p, digits, q);
  }

  lemma BoolRoundTrip(b: bool)
    ensures ParseBool(if b then "true" else "false") == Some(b)
  {
    var text := if b then "true" else "false";
    StripOfTrimmed(text);
    assert Lower(text) == text;
    assert "false" !in TRUE_WORDS by {
      assert "false" != "1" && "false"[0] != "true"[0] && "false" != "yes" && "false" != "on";
    }
  }

  /** The stripped pieces that are not empty. */
  function Pieces(parts: seq<string>): seq<string> {
    if parts == [] then []
    else
      var item := Strip(parts[0]);
      if item == "" then Pieces(parts[1..]) else [item] + Pieces(parts[1..])
  }

  /** The comma-separated list form. */
  function DecodeList(text: string): seq<string> { Pieces(Split(text, ',')) }

  predicate CleanItem(x: string) { x != "" && Trimmed(x) && ',' !in x }

  predicate CleanItems(items: seq<string>) { forall x <- items :: CleanItem(x) }

  lemma {:induction false} PiecesAreClean(parts: seq<string>)
    requires forall p <- parts :: ',' !in p
    ensures CleanItems(Pieces(parts))
  {
    if parts != [] {
      assert parts[0] in parts && forall p <- parts[1..] :: p in parts;
      StripFacts(parts[0]);
      PiecesAreClean(parts[1..]);
    }
  }

  lemma {:induction false} PiecesOfClean(items: seq<string>)
    requires CleanItems(items)
    ensures Pieces(items) == items
  {
    if items != [] {
      assert items[0] in items && forall p <- items[1..] :: p in items;
      StripOfTrimmed(items[0]);
      PiecesOfClean(items[1..]);
      assert items == [items[0]] + items[1..];
    }
  }

  lemma DecodeListIsClean(text: string)
    ensures CleanItems(DecodeList(text))
  {
    SplitPiecesLackSeparator(text, ',');
    PiecesAreClean(Split(text, ','));
  }

  /** A list survives being written and read exactly when each item is non-empty, trimmed and comma-free. */
  lemma ListRoundTrip(items: seq<string>)
    ensures DecodeList(Join(items, ',')) == items <==> CleanItems(items)
  {
    DecodeListIsClean(Join(items, ','));
    if CleanItems(items) {
      if items == [] {
        assert Split("", ',') == [""] && [""][1..] == [];
        assert Strip("") == "";
      } else {
        SplitOfJoin(items, ',');
        PiecesOfClean(items);
      }
    }
  }

  /** `decode_text`: `None` stands for `SettingTypeMismatch`. */
  function DecodeText(spec: KeySpec, text: string): Option<Value> {
    var parsed := match spec.valueType
      case StrType => Some(Str(text))
      case IntType => (match ParseInt(Strip(text)) case Some(n) => Some(Int(n)) case None => None)
      case BoolType => (match ParseBool(text) case Some(b) => Some(Bool(b)) case None => None)
      case ListType => Some(List(DecodeList(text)));
    if parsed.Some? && !spec.Chooses(parsed.value) then None else parsed
  }

  /** `encode_text` */
  function EncodeText(spec: KeySpec, v: Value): string
    requires MatchesType(spec.valueType, v)
  {
    match spec.valueType
    case StrType => v.text
    case IntType => Decimal(v.number)
    case BoolType => if v.flag then "true" else "false"
    case ListType => Join(v.items, ',')
  }

  /** What `DecodeText` can return for a key. */
  predicate Storable(spec: KeySpec, v: Value) {
    MatchesType(spec.valueType, v) && spec.Chooses(v) && (v.List? ==> CleanItems(v.items))
  }

  lemma DecodedIsStorable(spec: KeySpec, text: string)
    requires DecodeText(spec, text).Some?
    ensures Storable(spec, DecodeText(spec, text).value)
  {
    if spec.valueType.ListType? { DecodeListIsClean(text); }
  }

  /** Writing and reading back is the identity exactly on the values that reading can return. */
  lemma CodecRoundTrip(spec: KeySpec, v: Value)
    requires MatchesType(spec.valueType, v)
    ensures DecodeText(spec, EncodeText(spec, v)) == Some(v) <==> Storable(spec, v)
  {
    match spec.valueType
    case StrType =>
    case IntType => IntRoundTrip(v.number);
    case BoolType => BoolRoundTrip(v.flag);
    case ListType => ListRoundTrip(v.items);
  }

  /** Decoding, encoding and decoding again is decoding, on every text that is accepted. */
  lemma DecodeEncodeDecode(spec: KeySpec, text: string)
    requires DecodeText(spec, text).Some?
    ensures MatchesType(spec.valueType, DecodeText(spec, text).value)
    ensures DecodeText(spec, EncodeText(spec, DecodeText(spec, text).value)) == DecodeText(spec, text)
  {
    DecodedIsStorable(spec, text);
    CodecRoundTrip(spec, DecodeText(spec, text).value);
  }
}
