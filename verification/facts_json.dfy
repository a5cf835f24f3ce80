/** Reading compile facts out of a JSON object by substring search. */
module FactsJson {
  import opened SqlValues
  import opened Decimals

  // ---- the search ----

  predicate At(text: string, needle: string, p: nat) {
    p + |needle| <= |text| && text[p..p + |needle|] == needle
  }

  /** The first occurrence at or after a position. */
  function Find(text: string, needle: string, start: nat): (r: Option<nat>)
    ensures r.Some? ==> start <= r.value && At(text, needle, r.value)
    ensures forall p: nat :: start <= p && (r.None? || p < r.value) ==> !At(text, needle, p)
    decreases |text| - start
  {
    if start + |needle| > |text| then None
    else if At(text, needle, start) then Some(start)
    else Find(text, needle, start + 1)
  }

  function KeyNeedle(key: string): string {
    "\"" + key + "\":"
  }

  function StringNeedle(key: string): string {
    KeyNeedle(key) + "\""
  }

  // ---- the three extractors ----

  /** What was read so far and the text up to the closing quote, with escapes resolved; None if there is no closing
      quote. */
  function Decode(text: string, read: string): Option<string> {
    if text == "" then None
    else if text[0] == '\\' && |text| > 1 then Decode(text[2..], read + [if text[1] == 'n' then '\n' else text[1]])
    else if text[0] == '"' then Some(read)
    else Decode(text[1..], read + [text[0]])
  }

  function StringField(json: string, key: string): Option<string> {
    var p := Find(json, StringNeedle(key), 0);
    if p.None? then None else Decode(json[p.value + |StringNeedle(key)|..], "")
  }

  function SkipBlanks(text: string): string {
    if text != "" && (text[0] == ' ' || text[0] == '\t') then SkipBlanks(text[1..]) else text
  }

  predicate StartsWith(text: string, prefix: string) {
    |prefix| <= |text| && text[..|prefix|] == prefix
  }

  function ReadBool(text: string): Option<bool> {
    if StartsWith(text, "true") then Some(true) else if StartsWith(text, "false") then Some(false) else None
  }

  function BoolField(json: string, key: string): Option<bool> {
    var p := Find(json, KeyNeedle(key), 0);
    if p.None? then None else ReadBool(SkipBlanks(json[p.value + |KeyNeedle(key)|..]))
  }

  function DigitPrefix(text: string): (d: string)
    ensures AllDigits(d)
  {
    if text != "" && IsDigit(text[0]) then [text[0]] + DigitPrefix(text[1..]) else ""
  }

  const INT_MAX := 0x7fff_ffff
  const INT_MIN := -0x8000_0000

  /** stoi: None when there is no digit or the number does not fit. */
  function Stoi(negative: bool, digits: string): Option<int>
    requires AllDigits(digits)
  {
    var m: int := Parse(digits);
    var n := if negative then -m else m;
    if digits == "" || n < INT_MIN || n > INT_MAX then None else Some(n)
  }

  function ReadInt(text: string): Option<int> {
    if text != "" && (text[0] == '-' || text[0] == '+') then Stoi(text[0] == '-', DigitPrefix(text[1..]))
    else Stoi(false, DigitPrefix(text))
  }

  function IntField(json: string, key: string): Option<int> {
    var p := Find(json, KeyNeedle(key), 0);
    if p.None? then None else ReadInt(SkipBlanks(json[p.value + |KeyNeedle(key)|..]))
  }

  method ExtractJsonString(json: string, key: string) returns (val: Option<string>)
    ensures val == StringField(json, key)
  {
    var needle := StringNeedle(key);
    var found := Find(json, needle, 0);
    if found.None? {
      return None;
    }
    var pos := found.value + |needle|;
    ghost var start := pos;
    var text := "";
    while pos < |json|
      invariant start <= pos <= |json|
      invariant Decode(json[start..], "") == Decode(json[pos..], text)
    {
      var c := json[pos];
      if c == '\\' && pos + 1 < |json| {
        assert json[pos..][2..] == json[pos + 2..];
        var esc := json[pos + 1];
        text := text + [if esc == 'n' then '\n' else esc];
        pos := pos + 2;
        continue;
      }
      if c == '"' {
        return Some(text);
      }
      assert json[pos..][1..] == json[pos + 1..];
      text := text + [c];
      pos := pos + 1;
    }
    return None;
  }

  method SkipBlanksFrom(json: string, start: nat) returns (pos: nat)
    requires start <= |json|
    ensures start <= pos <= |json| && json[pos..] == SkipBlanks(json[start..])
  {
    pos := start;
    while pos < |json| && (json[pos] == ' ' || json[pos] == '\t')
      invariant start <= pos <= |json| && SkipBlanks(json[pos..]) == SkipBlanks(json[start..])
    {
      assert json[pos..][1..] == json[pos + 1..];
      pos := pos + 1;
    }
  }

  method ExtractJsonBool(json: string, key: string) returns (val: Option<bool>)
    ensures val == BoolField(json, key)
  {
    var needle := KeyNeedle(key);
    var found := Find(json, needle, 0);
    if found.None? {
      return None;
    }
    var pos := SkipBlanksFrom(json, found.value + |needle|);
    val := ReadBool(json[pos..]);
  }

  method ExtractJsonInt(json: string, key: string) returns (val: Option<int>)
    ensures val == IntField(json, key)
  {
    hide Stoi, SkipBlanks;
    var needle := KeyNeedle(key);
    var found := Find(json, needle, 0);
    if found.None? {
      return None;
    }
    var pos := SkipBlanksFrom(json, found.value + |needle|);
    var negative := false;
    if pos < |json| && (json[pos] == '-' || json[pos] == '+') {
      negative := json[pos] == '-';
      assert json[pos..][1..] == json[pos + 1..];
      pos := pos + 1;
    }
    var digits := ScanDigits(json, pos);
    val := Stoi(negative, digits);
  }

  method ScanDigits(json: string, start: nat) returns (digits: string)
    requires start <= |json|
    ensures digits == DigitPrefix(json[start..])
  {
    var pos := start;
    digits := "";
    while pos < |json| && IsDigit(json[pos])
      invariant start <= pos <= |json|
      invariant DigitPrefix(json[start..]) == digits + DigitPrefix(json[pos..])
    {
      assert json[pos..][1..] == json[pos + 1..];
      digits := digits + [json[pos]];
      pos := pos + 1;
    }
    assert digits + "" == digits;
  }

  // ---- canonical objects ----

  datatype JsonValue = Str(text: string) | Bool(b: bool) | Int(n: int)

  datatype Field = Field(key: string, value: JsonValue)

  function Escape(s: string): string {
    if s == "" then ""
    else
      (if s[0] == '"' then "\\\"" else if s[0] == '\\' then "\\\\" else if s[0] == '\n' then "\\n" else [s[0]])
      + Escape(s[1..])
  }

  function ValueText(v: JsonValue): string {
    match v
    case Str(s) => "\"" + Escape(s) + "\""
    case Bool(b) => if b then "true" else "false"
    case Int(n) => if n < 0 then "-" + Decimal(-n) else Decimal(n)
  }

  /** A field with the separator behind it. */
  function Segment(f: Field, separator: char): string {
    KeyNeedle(f.key) + ValueText(f.value) + [separator]
  }

  function Separator(fields: seq<Field>): char {
    if |fields| <= 1 then '}' else ','
  }

  function Body(fields: seq<Field>): string {
    if fields == [] then "" else Segment(fields[0], Separator(fields)) + Body(fields[1..])
  }

  /** The object without white space, fields in the given order. */
  function Render(fields: seq<Field>): string {
    "{" + if fields == [] then "}" else Body(fields)
  }

  predicate IsIdentifierChar(c: char) {
    IsDigit(c) || 'a' <= c <= 'z' || 'A' <= c <= 'Z' || c == '_'
  }

  predicate IsIdentifier(s: string) {
    s != "" && forall i :: 0 <= i < |s| ==> IsIdentifierChar(s[i])
  }

  predicate Canonical(fields: seq<Field>) {
    && (forall i :: 0 <= i < |fields| ==> IsIdentifier(fields[i].key))
    && (forall i, j :: 0 <= i < j < |fields| ==> fields[i].key != fields[j].key)
  }

  // ---- escaping ----

  lemma {:induction false} DecodeInvertsEscape(s: string, rest: string, read: string)
    ensures Decode(Escape(s) + "\"" + rest, read) == Some(read + s)
  {
    var text := Escape(s) + "\"" + rest;
    if s == "" {
      assert text == "\"" + rest && read + s == read;
    } else {
      var tail := Escape(s[1..]) + "\"" + rest;
      DecodeInvertsEscape(s[1..], rest, read + [s[0]]);
      assert read + [s[0]] + s[1..] == read + s;
      if s[0] == '"' || s[0] == '\\' || s[0] == '\n' {
        assert text[2..] == tail;
        assert [if text[1] == 'n' then '\n' else text[1]] == [s[0]];
      } else {
        assert text[1..] == tail;
      }
    }
  }

  /** In an escaped text every quote has a backslash before it. */
  lemma {:induction false} QuotesEscaped(s: string, i: nat)
    requires i < |Escape(s)| && Escape(s)[i] == '"'
    ensures i > 0 && Escape(s)[i - 1] == '\\'
  {
    var head := if s[0] == '"' then "\\\"" else if s[0] == '\\' then "\\\\" else if s[0] == '\n' then "\\n" else [s[0]];
    assert Escape(s) == head + Escape(s[1..]);
    if i >= |head| {
      QuotesEscaped(s[1..], i - |head|);
    }
  }

  // ---- where a key can match ----

  /** What a match of a key needle says character by character. */
  lemma MatchShape(text: string, key: string, p: nat)
    ensures At(text, KeyNeedle(key), p) ==>
              && p + |key| + 3 <= |text| && text[p] == '"' && text[p + 1 + |key|] == '"' && text[p + 2 + |key|] == ':'
              && text[p + 1..p + 1 + |key|] == key
    ensures At(text, KeyNeedle(key), p) && IsIdentifier(key) ==>
              forall j :: p < j <= p + |key| ==> IsIdentifierChar(text[j])
  {
    var needle := KeyNeedle(key);
    if At(text, needle, p) {
      var slice := text[p..p + |needle|];
      assert slice[0] == needle[0] && slice[1 + |key|] == needle[1 + |key|] && slice[2 + |key|] == needle[2 + |key|];
      assert slice[1..1 + |key|] == needle[1..1 + |key|] == key;
      assert text[p + 1..p + 1 + |key|] == key by {
        forall j | 0 <= j < |key|
          ensures text[p + 1 + j] == key[j]
        {
          assert slice[1 + j] == slice[1..1 + |key|][j];
        }
      }
      if IsIdentifier(key) {
        forall j | p < j <= p + |key|
          ensures IsIdentifierChar(text[j])
        {
          assert text[j] == text[p + 1..p + 1 + |key|][j - p - 1] == key[j - p - 1];
        }
      }
    }
  }

  /** No quote stands in the text of a number or a truth value. */
  lemma PlainHasNoQuote(v: JsonValue, i: nat)
    requires !v.Str? && i < |ValueText(v)|
    ensures ValueText(v)[i] != '"'
  {
    match v {
      case Bool(b) =>
      case Int(n) =>
        var m := if n < 0 then -n else n;
        assert AllDigits(Decimal(m));
      case _ =>
    }
  }

  /** A quote inside a value text that is neither its first nor its last character follows a backslash. */
  lemma InnerQuote(v: JsonValue, i: nat)
    requires 0 < i < |ValueText(v)| - 1 && ValueText(v)[i] == '"'
    ensures ValueText(v)[i - 1] == '\\'
  {
    if v.Str? {
      assert ValueText(v)[i] == Escape(v.text)[i - 1];
      QuotesEscaped(v.text, i - 1);
    } else {
      PlainHasNoQuote(v, i);
    }
  }

  lemma SegmentShape(f: Field, separator: char)
    ensures var s, k, e := Segment(f, separator), |f.key|, |ValueText(f.value)|;
            && |s| == k + 3 + e + 1 && s[0] == '"' && s[k + 1] == '"' && s[k + 2] == ':' && s[k + 3 + e] == separator
            && s[1..1 + k] == f.key && s[k + 3..k + 3 + e] == ValueText(f.value)
    ensures IsIdentifier(f.key) ==> forall j :: 0 < j <= |f.key| ==> IsIdentifierChar(Segment(f, separator)[j])
  {
    hide ValueText;
    var s := Segment(f, separator);
    if IsIdentifier(f.key) {
      forall j | 0 < j <= |f.key|
        ensures IsIdentifierChar(s[j])
      {
        assert s[j] == f.key[j - 1];
      }
    }
  }

  /** At the start of a field only its own key matches. */
  lemma MatchAtStart(f: Field, separator: char, rest: string, key: string)
    requires IsIdentifier(key) && IsIdentifier(f.key)
    requires At(Segment(f, separator) + rest, KeyNeedle(key), 0)
    ensures key == f.key
  {
    hide Segment, KeyNeedle, ValueText;
    var segment := Segment(f, separator);
    var text := segment + rest;
    SegmentShape(f, separator);
    MatchShape(text, key, 0);
    assert forall j :: 0 <= j < |segment| ==> text[j] == segment[j];
    assert text[1 + |f.key|] == '"' == text[1 + |key|];
    assert |key| == |f.key|;
    assert text[1..1 + |f.key|] == segment[1..1 + |f.key|];
  }

  /** Inside a field, behind its first quote, no key matches at all. */
  lemma NoMatchInside(f: Field, separator: char, rest: string, key: string, p: nat)
    requires IsIdentifier(key) && IsIdentifier(f.key) && (separator == ',' || separator == '}')
    requires 0 < p < |Segment(f, separator)|
    ensures !At(Segment(f, separator) + rest, KeyNeedle(key), p)
  {
    hide Segment, KeyNeedle, ValueText, At;
    var segment, v := Segment(f, separator), ValueText(f.value);
    var text := segment + rest;
    var k, e, q := |f.key|, |f.key| + 3 + |v|, p + 1 + |key|;
    SegmentShape(f, separator);
    MatchShape(text, key, p);
    assert forall j :: 0 <= j < |segment| ==> text[j] == segment[j];
    if p <= k {
      assert IsIdentifierChar(text[p]);
    } else if p <= k + 2 {
      assert text[k + 2] == ':';
    } else if q <= e && q + 1 < e {
      if text[q] == '"' {
        assert text[q] == segment[k + 3..e][q - k - 3] && text[q - 1] == segment[k + 3..e][q - k - 4];
        InnerQuote(f.value, q - k - 3);
      }
    }
  }

  // ---- the fields of an object are found where they are ----

  function Offset(fields: seq<Field>, i: nat): nat
    requires i <= |fields|
  {
    if i == 0 then 0 else |Segment(fields[0], Separator(fields))| + Offset(fields[1..], i - 1)
  }

  /** Every match of a key in the body of an object is at the start of a field with that key. */
  lemma {:induction false} MatchesAreFields(before: string, fields: seq<Field>, key: string, p: nat) returns (i: nat)
    requires IsIdentifier(key) && forall j :: 0 <= j < |fields| ==> IsIdentifier(fields[j].key)
    requires |before| <= p && At(before + Body(fields), KeyNeedle(key), p)
    ensures i < |fields| && fields[i].key == key && p == |before| + Offset(fields, i)
    decreases fields
  {
    hide Segment, KeyNeedle;
    var text := before + Body(fields);
    MatchShape(text, key, p);
    var segment := Segment(fields[0], Separator(fields));
    var rest := Body(fields[1..]);
    assert text == (before + segment) + rest == before + (segment + rest);
    if p < |before| + |segment| {
      Shifted(before, segment + rest, KeyNeedle(key), p);
      if p == |before| {
        MatchAtStart(fields[0], Separator(fields), rest, key);
        i := 0;
      } else {
        NoMatchInside(fields[0], Separator(fields), rest, key, p - |before|);
      }
    } else {
      var j := MatchesAreFields(before + segment, fields[1..], key, p);
      i := j + 1;
    }
  }

  lemma Shifted(before: string, text: string, needle: string, p: nat)
    requires |before| <= p
    ensures At(before + text, needle, p) <==> At(text, needle, p - |before|)
  {
    if p + |needle| <= |before + text| {
      assert (before + text)[p..p + |needle|] == text[p - |before|..p - |before| + |needle|];
    }
  }

  /** At its offset a field can be read: key, value, and behind it a separator. */
  lemma {:induction false} FieldAt(before: string, fields: seq<Field>, i: nat) returns (rest: string)
    requires i < |fields|
    ensures |before| + Offset(fields, i) <= |before + Body(fields)|
    ensures (before + Body(fields))[|before| + Offset(fields, i)..]
            == KeyNeedle(fields[i].key) + ValueText(fields[i].value) + rest
    ensures rest != "" && (rest[0] == ',' || rest[0] == '}')
    decreases fields
  {
    hide KeyNeedle, ValueText;
    var f := fields[0];
    var segment, more := Segment(f, Separator(fields)), Body(fields[1..]);
    assert before + Body(fields) == (before + segment) + more;
    if i == 0 {
      rest := [Separator(fields)] + more;
      assert (before + Body(fields))[|before|..] == Body(fields);
      assert Body(fields) == KeyNeedle(f.key) + ValueText(f.value) + rest;
    } else {
      rest := FieldAt(before + segment, fields[1..], i - 1);
    }
  }

  ghost predicate OnlyMatch(text: string, needle: string, q: nat) {
    At(text, needle, q) && forall p: nat :: At(text, needle, p) ==> p == q
  }

  lemma FindOnly(text: string, needle: string, q: nat)
    requires OnlyMatch(text, needle, q)
    ensures Find(text, needle, 0) == Some(q)
  {
  }

  lemma FindNone(text: string, needle: string)
    requires forall p: nat :: !At(text, needle, p)
    ensures Find(text, needle, 0) == None
  {
  }

  /** In a canonical object the key of a field matches at that field only, and its value can be read behind it. */
  lemma KeyFound(fields: seq<Field>, i: nat) returns (q: nat, rest: string)
    requires Canonical(fields) && i < |fields|
    ensures OnlyMatch(Render(fields), KeyNeedle(fields[i].key), q)
    ensures q + |KeyNeedle(fields[i].key)| <= |Render(fields)|
    ensures Render(fields)[q + |KeyNeedle(fields[i].key)|..] == ValueText(fields[i].value) + rest
    ensures rest != "" && (rest[0] == ',' || rest[0] == '}')
  {
    hide KeyNeedle, ValueText, Body, Offset, IsIdentifier;
    var key, text := fields[i].key, "{" + Body(fields);
    var needle := KeyNeedle(key);
    rest := FieldAt("{", fields, i);
    q := 1 + Offset(fields, i);
    assert text[q..][..|needle|] == needle && text[q..][|needle|..] == ValueText(fields[i].value) + rest;
    assert text[q..q + |needle|] == text[q..][..|needle|];
    assert text[q + |needle|..] == text[q..][|needle|..];
    forall p: nat | At(text, needle, p)
      ensures p == q
    {
      FirstBrace(text, key, p);
      var j := MatchesAreFields("{", fields, key, p);
    }
  }

  lemma FirstBrace(text: string, key: string, p: nat)
    requires text != "" && text[0] == '{' && At(text, KeyNeedle(key), p)
    ensures p >= 1
  {
    MatchShape(text, key, p);
  }

  /** A key that no field has matches nowhere. */
  lemma KeyAbsent(fields: seq<Field>, key: string, p: nat)
    requires Canonical(fields) && IsIdentifier(key) && forall i :: 0 <= i < |fields| ==> fields[i].key != key
    ensures !At(Render(fields), KeyNeedle(key), p)
  {
    hide KeyNeedle, Body, IsIdentifier;
    var text := Render(fields);
    if At(text, KeyNeedle(key), p) {
      MatchShape(text, key, p);
      if fields != [] {
        FirstBrace(text, key, p);
        var i := MatchesAreFields("{", fields, key, p);
      }
    }
  }

  lemma StringNeedleShape(text: string, key: string, p: nat)
    ensures At(text, StringNeedle(key), p) <==>
              At(text, KeyNeedle(key), p) && p + |KeyNeedle(key)| < |text| && text[p + |KeyNeedle(key)|] == '"'
  {
    hide KeyNeedle;
    var n := KeyNeedle(key);
    if p + |n| + 1 <= |text| {
      assert text[p..p + |n| + 1] == text[p..p + |n|] + [text[p + |n|]];
      assert (text[p..p + |n|] + [text[p + |n|]])[|n|] == text[p + |n|];
      assert (text[p..p + |n| + 1])[..|n|] == text[p..p + |n|];
      assert StringNeedle(key)[..|n|] == n && StringNeedle(key)[|n|] == '"';
    }
  }

  // ---- every extractor reads exactly the fields of its type ----

  /** The text behind a key reads back as the value, and as nothing of another type. */
  lemma ReadBack(v: JsonValue, rest: string)
    requires rest != "" && (rest[0] == ',' || rest[0] == '}')
    ensures ValueText(v) != "" && (ValueText(v)[0] == '"' <==> v.Str?)
    ensures v.Str? ==> Decode((ValueText(v) + rest)[1..], "") == Some(v.text)
    ensures ReadBool(SkipBlanks(ValueText(v) + rest)) == if v.Bool? then Some(v.b) else None
    ensures ReadInt(SkipBlanks(ValueText(v) + rest))
            == if v.Int? && INT_MIN <= v.n <= INT_MAX then Some(v.n) else None
  {
    hide Decode, ReadInt, ReadBool;
    match v {
      case Str(s) => StringReadBack(s, rest);
      case Bool(b) => BoolReadBack(b, rest);
      case Int(n) =>
        IntReadBack(n, rest);
        NoBool(ValueText(v) + rest);
    }
  }

  lemma NoBool(text: string)
    requires text != "" && text[0] != 't' && text[0] != 'f'
    ensures ReadBool(text) == None
  {
    StartsWithFirst(text, "true");
    StartsWithFirst(text, "false");
  }

  lemma StartsWithFirst(text: string, prefix: string)
    requires text != "" && prefix != ""
    ensures StartsWith(text, prefix) ==> text[0] == prefix[0]
  {
    if StartsWith(text, prefix) {
      assert text[..|prefix|][0] == prefix[0];
    }
  }

  lemma NoInt(text: string)
    requires text != "" && text[0] != '-' && text[0] != '+' && !IsDigit(text[0])
    ensures ReadInt(text) == None
  {
  }

  lemma StringReadBack(s: string, rest: string)
    ensures var text := ValueText(Str(s)) + rest;
            && ValueText(Str(s)) != "" && text[0] == '"' && Decode(text[1..], "") == Some(s)
            && SkipBlanks(text) == text && ReadBool(text) == None && ReadInt(text) == None
  {
    hide Decode, ReadBool, ReadInt;
    var text := ValueText(Str(s)) + rest;
    assert text[1..] == Escape(s) + "\"" + rest;
    DecodeInvertsEscape(s, rest, "");
    assert "" + s == s;
    NoBool(text);
    NoInt(text);
  }

  lemma BoolReadBack(b: bool, rest: string)
    ensures var text := ValueText(Bool(b)) + rest;
            && ValueText(Bool(b)) != "" && text[0] != '"'
            && SkipBlanks(text) == text && ReadBool(text) == Some(b) && ReadInt(text) == None
  {
    hide ReadInt;
    var text := ValueText(Bool(b)) + rest;
    if b {
      assert text[..4] == "true";
    } else {
      assert text[..5] == "false";
      StartsWithFirst(text, "true");
      assert text[0] == "false"[0];
    }
    assert text[0] == ValueText(Bool(b))[0];
    NoInt(text);
  }

  lemma {:induction false} DigitsUpTo(digits: string, rest: string)
    requires AllDigits(digits) && (rest == "" || !IsDigit(rest[0]))
    ensures DigitPrefix(digits + rest) == digits
  {
    if digits == "" {
      assert digits + rest == rest;
    } else {
      assert (digits + rest)[1..] == digits[1..] + rest;
      DigitsUpTo(digits[1..], rest);
    }
  }

  lemma IntReadBack(n: int, rest: string)
    requires rest != "" && (rest[0] == ',' || rest[0] == '}')
    ensures var text := ValueText(Int(n)) + rest;
            && ValueText(Int(n)) != "" && text[0] != '"' && text[0] != 't' && text[0] != 'f' && SkipBlanks(text) == text
            && ReadInt(text) == if INT_MIN <= n <= INT_MAX then Some(n) else None
  {
    hide Decimal, Stoi, DigitPrefix;
    var m: nat := if n < 0 then -n else n;
    var text := ValueText(Int(n)) + rest;
    assert IsDigit(Decimal(m)[0]);
    DigitsUpTo(Decimal(m), rest);
    StoiDecimal(n < 0, m);
    if n < 0 {
      assert text[0] == '-' && text[1..] == Decimal(m) + rest;
    } else {
      assert text == Decimal(m) + rest && text[0] == Decimal(m)[0];
    }
  }

  lemma StoiDecimal(negative: bool, m: nat)
    ensures var n := if negative then 0 - (m as int) else m as int;
            Stoi(negative, Decimal(m)) == if INT_MIN <= n <= INT_MAX then Some(n) else None
  {
    hide Decimal;
    ParseDecimal(m);
  }

  /** The value of a key; None if there is no such field. */
  function Lookup(fields: seq<Field>, key: string): Option<JsonValue> {
    if fields == [] then None
    else if fields[0].key == key then Some(fields[0].value)
    else Lookup(fields[1..], key)
  }

  lemma {:induction false} LookupIndex(fields: seq<Field>, key: string) returns (i: nat)
    ensures Lookup(fields, key).Some? ==> i < |fields| && fields[i].key == key && Lookup(fields, key) == Some(fields[i].value)
    ensures Lookup(fields, key).None? ==> forall j :: 0 <= j < |fields| ==> fields[j].key != key
  {
    i := 0;
    if fields != [] && fields[0].key != key {
      var j := LookupIndex(fields[1..], key);
      i := j + 1;
      forall h | 0 <= h < |fields|
        ensures Lookup(fields, key).None? ==> fields[h].key != key
      {
        assert h > 0 ==> fields[h] == fields[1..][h - 1];
      }
    }
  }

  /** For every canonical object and every key: the first match is the field, whatever the other values contain, and each
      extractor gives its value if the type is right and nothing otherwise. */
  lemma ExtractionIsExact(fields: seq<Field>, key: string)
    requires Canonical(fields) && IsIdentifier(key)
    ensures var v, json := Lookup(fields, key), Render(fields);
            && StringField(json, key) == (if v.Some? && v.value.Str? then Some(v.value.text) else None)
            && BoolField(json, key) == (if v.Some? && v.value.Bool? then Some(v.value.b) else None)
            && IntField(json, key)
               == if v.Some? && v.value.Int? && INT_MIN <= v.value.n <= INT_MAX then Some(v.value.n) else None
  {
    hide KeyNeedle, StringNeedle, Render, ValueText, Decode, ReadBool, ReadInt, SkipBlanks, Canonical, IsIdentifier;
    var json := Render(fields);
    var i := LookupIndex(fields, key);
    if Lookup(fields, key).None? {
      forall p: nat
        ensures !At(json, KeyNeedle(key), p) && !At(json, StringNeedle(key), p)
      {
        KeyAbsent(fields, key, p);
        StringNeedleShape(json, key, p);
      }
      FindNone(json, KeyNeedle(key));
      FindNone(json, StringNeedle(key));
    } else {
      var q, rest := KeyFound(fields, i);
      var v := fields[i].value;
      ReadBack(v, rest);
      FindOnly(json, KeyNeedle(key), q);
      ReadString(json, key, q, v, rest);
    }
  }

  lemma ReadString(json: string, key: string, q: nat, v: JsonValue, rest: string)
    requires OnlyMatch(json, KeyNeedle(key), q) && q + |KeyNeedle(key)| <= |json|
    requires json[q + |KeyNeedle(key)|..] == ValueText(v) + rest && ValueText(v) != ""
    requires ValueText(v)[0] == '"' <==> v.Str?
    requires v.Str? ==> Decode((ValueText(v) + rest)[1..], "") == Some(v.text)
    ensures StringField(json, key) == if v.Str? then Some(v.text) else None
  {
    hide KeyNeedle, ValueText, Decode;
    var n := |KeyNeedle(key)|;
    assert json[q + n] == json[q + n..][0] == ValueText(v)[0];
    forall p: nat
      ensures At(json, StringNeedle(key), p) <==> p == q && v.Str?
    {
      StringNeedleShape(json, key, p);
    }
    if v.Str? {
      FindOnly(json, StringNeedle(key), q);
      assert json[q + n + 1..] == (ValueText(v) + rest)[1..];
    } else {
      FindNone(json, StringNeedle(key));
    }
  }

  // ---- the facts ----

  datatype Dialect = Spark | DuckDb | DuckLake

  datatype CompileFacts = CompileFacts(schemaVersion: int, dialect: Dialect, compileOnly: bool, forceViewDeltaCascade: bool)

  datatype ParseResult = Parsed(facts: CompileFacts) | MissingDialect | UnknownDialect(name: string)

  const CURRENT_SCHEMA_VERSION := 1

  function OrElse<T>(o: Option<T>, default_: T): T {
    if o.Some? then o.value else default_
  }

  /** Reads the facts; parseDialect knows the dialect names. */
  method ParseFactsJson(json: string, parseDialect: string -> Option<Dialect>) returns (r: ParseResult)
    ensures StringField(json, "target_dialect").None? ==> r == MissingDialect
    ensures StringField(json, "target_dialect").Some? ==>
              var name := StringField(json, "target_dialect").value;
              if parseDialect(name).None? then r == UnknownDialect(name)
              else r == Parsed(CompileFacts(OrElse(IntField(json, "schema_version"), CURRENT_SCHEMA_VERSION),
                                            parseDialect(name).value,
                                            OrElse(BoolField(json, "compile_only"), false),
                                            OrElse(BoolField(json, "force_view_delta_cascade"), false)))
  {
    hide StringField, IntField, BoolField;
    var dialect := ExtractJsonString(json, "target_dialect");
    if dialect.None? {
      return MissingDialect;
    }
    var parsed := parseDialect(dialect.value);
    if parsed.None? {
      return UnknownDialect(dialect.value);
    }
    var facts := CompileFacts(CURRENT_SCHEMA_VERSION, parsed.value, false, false);
    var version := ExtractJsonInt(json, "schema_version");
    if version.Some? {
      facts := facts.(schemaVersion := version.value);
    }
    var compileOnly := ExtractJsonBool(json, "compile_only");
    if compileOnly.Some? {
      facts := facts.(compileOnly := compileOnly.value);
    }
    var force := ExtractJsonBool(json, "force_view_delta_cascade");
    if force.Some? {
      facts := facts.(forceViewDeltaCascade := force.value);
    }
    r := Parsed(facts);
  }

  predicate FitsInt(n: int) {
    INT_MIN <= n <= INT_MAX
  }

  lemma KeysAreIdentifiers()
    ensures IsIdentifier("target_dialect") && IsIdentifier("schema_version")
    ensures IsIdentifier("compile_only") && IsIdentifier("force_view_delta_cascade")
  {
  }

  /** A canonical object that says everything is read back completely, in whatever order it says it and whatever else it
      contains. */
  method ParseRecoversFacts(fields: seq<Field>, facts: CompileFacts, name: string, parseDialect: string -> Option<Dialect>)
    returns (r: ParseResult)
    requires Canonical(fields) && parseDialect(name) == Some(facts.dialect) && FitsInt(facts.schemaVersion)
    requires Lookup(fields, "target_dialect") == Some(Str(name))
    requires Lookup(fields, "schema_version") == Some(Int(facts.schemaVersion))
    requires Lookup(fields, "compile_only") == Some(Bool(facts.compileOnly))
    requires Lookup(fields, "force_view_delta_cascade") == Some(Bool(facts.forceViewDeltaCascade))
    ensures r == Parsed(facts)
  {
    hide StringField, IntField, BoolField, Canonical, IsIdentifier, Lookup;
    KeysAreIdentifiers();
    ExtractionIsExact(fields, "target_dialect");
    ExtractionIsExact(fields, "schema_version");
    ExtractionIsExact(fields, "compile_only");
    ExtractionIsExact(fields, "force_view_delta_cascade");
    r := ParseFactsJson(Render(fields), parseDialect);
  }
}
