/** The desktop's cron validator, and its agreement with the agent's white list. */
module CronValidator {
  import opened Options
  import opened Triggers
  import L = CronLexer

  // ---------- text ----------

  predicate IsDigit(c: char) { '0' <= c <= '9' }

  predicate IsLetter(c: char) { 'A' <= c <= 'Z' || 'a' <= c <= 'z' }

  predicate AllDigits(s: string) { forall i | 0 <= i < |s| :: IsDigit(s[i]) }

  predicate Digits(s: string) { s != [] && AllDigits(s) }

  predicate ThreeLetters(s: string) { |s| == 3 && forall i | 0 <= i < 3 :: IsLetter(s[i]) }

  function Lower(c: char): char { if 'A' <= c <= 'Z' then ((c as int) + 32) as char else c }

  function LowerAll(s: string): string {
    if s == [] then [] else [Lower(s[0])] + LowerAll(s[1..])
  }

  /** The decimal value of a string of digits. */
  function Value(s: string): nat
    requires AllDigits(s)
  {
    if s == [] then 0 else 10 * Value(s[..|s| - 1]) + (s[|s| - 1] as int - '0' as int)
  }

  /** The parts between separators: one more than there are separators. */
  function Split(s: string, separator: char): (parts: seq<string>)
    ensures parts != []
    ensures s == Glue(parts, separator)
  {
    if s == [] then [[]]
    else
      var rest := Split(s[1..], separator);
      if s[0] == separator then
        assert ([[]] + rest)[1..] == rest;
        [[]] + rest
      else
        assert |rest| > 1 ==> ([[s[0]] + rest[0]] + rest[1..])[1..] == rest[1..];
        [[s[0]] + rest[0]] + rest[1..]
  }

  function Glue(parts: seq<string>, separator: char): string
    requires parts != []
  {
    if |parts| == 1 then parts[0] else parts[0] + [separator] + Glue(parts[1..], separator)
  }

  // ---------- the validator ----------

  const MONTHS: map<string, nat> :=
    map["jan" := 1, "feb" := 2, "mar" := 3, "apr" := 4, "may" := 5, "jun" := 6,
        "jul" := 7, "aug" := 8, "sep" := 9, "oct" := 10, "nov" := 11, "dec" := 12]

  const WEEKDAYS: map<string, nat> :=
    map["sun" := 0, "mon" := 1, "tue" := 2, "wed" := 3, "thu" := 4, "fri" := 5, "sat" := 6]

  /** The numbers a position takes; 7 is Sunday as well as 0. */
  function RangeOf(position: nat): (int, int) {
    match position
    case 0 => (0, 59)
    case 1 => (0, 23)
    case 2 => (1, 31)
    case 3 => (1, 12)
    case _ => (0, 7)
  }

  /** What the token pattern allows before a dash, and after it. */
  predicate IsAtom(s: string) { Digits(s) || ThreeLetters(s) }

  predicate IsStart(s: string) { s == "*" || s == "?" || IsAtom(s) }

  predicate MatchesToken(token: string) {
    var stepped := Split(token, '/');
    var range := Split(stepped[0], '-');
    && |stepped| <= 2 && (|stepped| == 2 ==> Digits(stepped[1]))
    && |range| <= 2 && IsStart(range[0]) && (|range| == 2 ==> IsAtom(range[1]))
  }

  /** A number or a name this position knows; a Sunday that ends a range counts as 7. */
  function FieldValue(part: string, position: nat, endsRange: bool): Option<nat> {
    if Digits(part) then Some(Value(part))
    else
      var name := LowerAll(part);
      var table := if position == 3 then MONTHS else if position == 4 then WEEKDAYS else map[];
      if name !in table then None
      else if position == 4 && endsRange && name == "sun" then Some(7)
      else Some(table[name])
  }

  predicate CheckToken(token: string, position: nat) {
    var (lo, hi) := RangeOf(position);
    MatchesToken(token)
    && var parts := Split(token, '-');
       var start := FieldValue(parts[0], position, false);
    && start.Some? && lo <= start.value <= hi
    && (|parts| == 1 ||
        var end := FieldValue(parts[1], position, true);
        end.Some? && lo <= end.value <= hi && start.value <= end.value)
  }

  predicate ValidToken(token: string, position: nat) {
    if '/' !in token then CheckToken(token, position)
    else
      var parts := Split(token, '/');
      && |parts| == 2
      && Digits(parts[1]) && Value(parts[1]) >= 1
      && (parts[0] == "*" || parts[0] == "?" || CheckToken(parts[0], position))
  }

  predicate ValidField(field: string, position: nat) {
    field == "*" || field == "?" || forall token | token in Split(field, ',') :: ValidToken(token, position)
  }

  predicate ValidateCronExpression(fields: seq<string>) {
    |fields| == 5 && forall i | 0 <= i < 5 :: ValidField(fields[i], i)
  }

  // ---------- agreement ----------

  predicate Ascii(s: string) { forall i | 0 <= i < |s| :: (s[i] as int) < 128 }

  /** UTF-8 keeps ASCII characters as they are. */
  function Bytes(s: string): seq<byte>
    requires Ascii(s)
  {
    if s == [] then [] else [s[0] as int as byte] + Bytes(s[1..])
  }

  /** The agent's white list takes this field in this position. */
  ghost predicate Listed(s: string, position: nat) {
    Ascii(s) && L.IsStandardField(Bytes(s), position == 3, position == 4)
  }

  lemma {:induction false} BytesOfMore(a: string, b: string)
    requires Ascii(a) && Ascii(b)
    ensures Ascii(a + b) && Bytes(a + b) == Bytes(a) + Bytes(b)
  {
    AsciiOfMore(a, b);
    if a == [] {
      assert a + b == b;
    } else {
      assert (a + b)[1..] == a[1..] + b;
      BytesOfMore(a[1..], b);
      assert Bytes(a + b) == [a[0] as int as byte] + Bytes(a[1..] + b);
    }
  }

  lemma AsciiOfMore(a: string, b: string)
    requires Ascii(a) && Ascii(b)
    ensures Ascii(a + b)
  { }

  lemma {:induction false} JoinOfMore(a: seq<seq<byte>>, b: seq<seq<byte>>)
    ensures L.Join(a + b) == L.Join(a) + L.Join(b)
  {
    if a == [] {
      assert a + b == b;
    } else {
      assert (a + b)[1..] == a[1..] + b;
      JoinOfMore(a[1..], b);
    }
  }

  lemma ListedTogether(a: string, b: string, position: nat)
    requires Listed(a, position) && Listed(b, position)
    ensures Listed(a + b, position)
  {
    hide L.IsLexeme;
    var month, weekday := position == 3, position == 4;
    var x :| L.Composes(x, Bytes(a), month, weekday);
    var y :| L.Composes(y, Bytes(b), month, weekday);
    JoinOfMore(x, y);
    BytesOfMore(a, b);
    assert L.Composes(x + y, Bytes(a + b), month, weekday);
  }

  lemma SymbolIsListed(c: char, position: nat)
    requires IsDigit(c) || c in "*?,-/"
    ensures Listed([c], position)
  {
    var lexemes: seq<seq<byte>> := [[c as int]];
    assert [c][1..] == [] && lexemes[1..] == [];
    assert Bytes([c]) == [c as int] + Bytes([]);
    assert L.Join(lexemes) == lexemes[0] + L.Join([]);
    assert Bytes([c]) == [c as int] == L.Join(lexemes);
    assert L.Composes(lexemes, Bytes([c]), position == 3, position == 4);
  }

  lemma NothingIsListed(position: nat)
    ensures Listed([], position)
  {
    assert L.Composes([], Bytes([]), position == 3, position == 4);
  }

  lemma {:induction false} DigitsAreListed(s: string, position: nat)
    requires AllDigits(s)
    ensures Listed(s, position)
  {
    hide Listed;
    if s == [] {
      NothingIsListed(position);
    } else {
      SymbolIsListed(s[0], position);
      DigitsAreListed(s[1..], position);
      ListedTogether([s[0]], s[1..], position);
      assert s == [s[0]] + s[1..];
    }
  }

  /** Lower-case names of the desktop and upper-case names of the agent are the same names. */
  lemma NameIsListed(s: string, position: nat)
    requires ThreeLetters(s)
    requires (position == 3 && LowerAll(s) in MONTHS) || (position == 4 && LowerAll(s) in WEEKDAYS)
    ensures Listed(s, position)
  {
    var b: seq<byte> := [s[0] as int, s[1] as int, s[2] as int];
    BytesOfThree(s);
    UpperOfLower(s, b);
    if position == 3 { MonthsAreMonths(LowerAll(s)); } else { WeekdaysAreWeekdays(LowerAll(s)); }
    assert L.Join([b]) == b;
    assert L.Composes([b], b, position == 3, position == 4);
  }

  lemma BytesOfThree(s: string)
    requires ThreeLetters(s)
    ensures Ascii(s) && Bytes(s) == [s[0] as int, s[1] as int, s[2] as int]
  {
    assert s == [s[0]] + ([s[1]] + [s[2]]);
    BytesOfMore([s[0]], [s[1]] + [s[2]]);
    BytesOfMore([s[1]], [s[2]]);
  }

  /** A lower-case name in capitals. */
  function Capitals(name: string): seq<int>
    requires |name| == 3
  {
    [name[0] as int - 32, name[1] as int - 32, name[2] as int - 32]
  }

  lemma MonthsAreMonths(name: string)
    requires name in MONTHS
    ensures |name| == 3 && Capitals(name) in L.MONTH_NAMES
  { }

  lemma WeekdaysAreWeekdays(name: string)
    requires name in WEEKDAYS
    ensures |name| == 3 && Capitals(name) in L.WEEKDAY_NAMES
  { }

  lemma LowerOfThree(s: string)
    requires |s| == 3
    ensures LowerAll(s) == [Lower(s[0]), Lower(s[1]), Lower(s[2])]
  {
    assert s == [s[0], s[1], s[2]] && s[1..] == [s[1], s[2]] && s[1..][1..] == [s[2]];
    assert LowerAll([s[2]]) == [Lower(s[2])];
    assert LowerAll([s[1], s[2]]) == [Lower(s[1])] + LowerAll([s[2]]) by { assert [s[1], s[2]][1..] == [s[2]]; }
  }

  lemma UpperOfThree(b: seq<byte>)
    requires |b| == 3
    ensures L.UpperAll(b) == [L.Upper(b[0]), L.Upper(b[1]), L.Upper(b[2])]
  {
    assert b == [b[0], b[1], b[2]] && b[1..] == [b[1], b[2]] && b[1..][1..] == [b[2]];
    assert L.UpperAll([b[2]]) == [L.Upper(b[2])];
    assert L.UpperAll([b[1], b[2]]) == [L.Upper(b[1])] + L.UpperAll([b[2]]) by { assert [b[1], b[2]][1..] == [b[2]]; }
  }

  lemma UpperOfLower(s: string, b: seq<byte>)
    requires ThreeLetters(s) && b == [s[0] as int, s[1] as int, s[2] as int]
    ensures |LowerAll(s)| == 3 && L.UpperAll(b) == Capitals(LowerAll(s))
  {
    LowerOfThree(s);
    UpperOfThree(b);
  }

  lemma AtomIsListed(s: string, position: nat, endsRange: bool)
    requires IsStart(s) && FieldValue(s, position, endsRange).Some?
    ensures Listed(s, position)
  {
    hide Listed;
    if Digits(s) {
      DigitsAreListed(s, position);
    } else if ThreeLetters(s) {
      NameIsListed(s, position);
    } else {
      SymbolIsListed(s[0], position);
    }
  }

  lemma {:induction false} GluedIsListed(parts: seq<string>, separator: char, position: nat)
    requires parts != [] && separator in ",-/" && forall p | p in parts :: Listed(p, position)
    ensures Listed(Glue(parts, separator), position)
  {
    hide Listed;
    if |parts| > 1 {
      SymbolIsListed(separator, position);
      GluedIsListed(parts[1..], separator, position);
      ListedTogether(parts[0], [separator], position);
      ListedTogether(parts[0] + [separator], Glue(parts[1..], separator), position);
    }
  }

  lemma TokenIsListed(token: string, position: nat)
    requires CheckToken(token, position) && '/' !in token
    ensures Listed(token, position)
  {
    hide Listed;
    var parts := Split(token, '-');
    Whole(token, '/');
    forall p | p in parts ensures Listed(p, position) {
      AtomIsListed(p, position, p != parts[0]);
    }
    GluedIsListed(parts, '-', position);
  }

  lemma {:induction false} Whole(s: string, separator: char)
    requires separator !in s
    ensures Split(s, separator) == [s]
  {
    if s != [] { Whole(s[1..], separator); }
  }

  lemma {:induction false} PartsAreClean(s: string, separator: char)
    ensures forall p | p in Split(s, separator) :: separator !in p
  {
    if s != [] { PartsAreClean(s[1..], separator); }
  }

  lemma ValidTokenIsListed(token: string, position: nat)
    requires ValidToken(token, position)
    ensures Listed(token, position)
  {
    hide Listed, CheckToken;
    if '/' !in token {
      TokenIsListed(token, position);
    } else {
      var parts := Split(token, '/');
      PartsAreClean(token, '/');
      if parts[0] == "*" || parts[0] == "?" {
        SymbolIsListed(parts[0][0], position);
        assert parts[0] == [parts[0][0]];
      } else {
        TokenIsListed(parts[0], position);
      }
      DigitsAreListed(parts[1], position);
      assert parts == [parts[0], parts[1]];
      GluedIsListed(parts, '/', position);
    }
  }

  /** Every field list the desktop accepts passes the agent's white list, field by field. */
  lemma AcceptedIsListed(fields: seq<string>, i: nat)
    requires ValidateCronExpression(fields) && i < 5
    ensures Ascii(fields[i]) && L.IsStandardField(Bytes(fields[i]), i == 3, i == 4)
  {
    assert Listed(fields[i], i) by {
      hide Listed, ValidToken;
      var field := fields[i];
      if field == "*" || field == "?" {
        SymbolIsListed(field[0], i);
        assert field == [field[0]];
      } else {
        var tokens := Split(field, ',');
        forall token | token in tokens ensures Listed(token, i) { ValidTokenIsListed(token, i); }
        GluedIsListed(tokens, ',', i);
      }
    }
  }

  // ---------- what the validator accepts ----------

  const MONTH_LIST: seq<string> :=
    ["jan", "feb", "mar", "apr", "may", "jun", "jul", "aug", "sep", "oct", "nov", "dec"]

  const WEEKDAY_LIST: seq<string> := ["sun", "mon", "tue", "wed", "thu", "fri", "sat"]

  /** The text is a numeral or a name for `v`; Sunday is 0, and 7 where it ends a range. */
  predicate Denotes(text: string, position: nat, endsRange: bool, v: int) {
    || (Digits(text) && v == Value(text))
    || (ThreeLetters(text) && position == 3 && 1 <= v <= 12 && LowerAll(text) == MONTH_LIST[v - 1])
    || (ThreeLetters(text) && position == 4 && LowerAll(text) == "sun" && v == if endsRange then 7 else 0)
    || (ThreeLetters(text) && position == 4 && 1 <= v <= 6 && LowerAll(text) == WEEKDAY_LIST[v])
  }

  predicate InBounds(position: nat, v: int) {
    || (position == 0 && 0 <= v <= 59)
    || (position == 1 && 0 <= v <= 23)
    || (position == 2 && 1 <= v <= 31)
    || (position == 3 && 1 <= v <= 12)
    || (position == 4 && 0 <= v <= 7)
  }

  ghost predicate IsValue(text: string, position: nat) {
    exists v :: Denotes(text, position, false, v) && InBounds(position, v)
  }

  ghost predicate IsPair(first: string, last: string, position: nat) {
    exists v, w :: Denotes(first, position, false, v) && Denotes(last, position, true, w)
                   && InBounds(position, v) && InBounds(position, w) && v <= w
  }

  /** A value, or two with a dash between, not the wrong way round. */
  ghost predicate IsRange(text: string, position: nat) {
    || IsValue(text, position)
    || exists first, last :: text == first + ['-'] + last && IsPair(first, last, position)
  }

  /** A star, or a range, that a step may follow. */
  ghost predicate IsStepped(base: string, step: string, position: nat) {
    (base == "*" || base == "?" || IsRange(base, position)) && Digits(step) && Value(step) >= 1
  }

  /** A range, or anything with a positive step after a slash. */
  ghost predicate IsItem(text: string, position: nat) {
    IsRange(text, position) || exists base, step :: text == base + ['/'] + step && IsStepped(base, step, position)
  }

  ghost predicate IsList(field: string, position: nat, items: seq<string>) {
    items != [] && field == Glue(items, ',') && forall item | item in items :: IsItem(item, position)
  }

  /** A star, or items between commas. */
  ghost predicate IsField(field: string, position: nat) {
    field == "*" || field == "?" || exists items :: IsList(field, position, items)
  }

  lemma MonthsByNumber(name: string, v: int)
    ensures name in MONTHS && MONTHS[name] == v <==> 1 <= v <= 12 && name == MONTH_LIST[v - 1]
  { }

  lemma WeekdaysByNumber(name: string, v: int)
    ensures name in WEEKDAYS && WEEKDAYS[name] == v <==> 0 <= v <= 6 && name == WEEKDAY_LIST[v]
  { }

  lemma {:induction false} LowerKeepsLength(s: string)
    ensures |LowerAll(s)| == |s|
  {
    if s != [] { LowerKeepsLength(s[1..]); }
  }

  /** Reading a part as the program does is reading it by what it denotes. */
  lemma ValueIsDenoted(text: string, position: nat, endsRange: bool, v: int)
    requires IsStart(text)
    ensures FieldValue(text, position, endsRange) == Some(v) <==> Denotes(text, position, endsRange, v)
  {
    hide LowerAll;
    var name := LowerAll(text);
    LowerKeepsLength(text);
    if Digits(text) {
      DigitsAreNoLetters(text);
    } else if position == 3 {
      MonthsByNumber(name, v);
      if !ThreeLetters(text) && name in MONTHS { MonthsAreMonths(name); }
    } else if position == 4 {
      WeekdaysByNumber(name, v);
      WeekdaysByNumber(name, 0);
      if name in WEEKDAYS { WeekdaysAreWeekdays(name); WeekdaysByNumber(name, WEEKDAYS[name]); }
    }
  }

  lemma DigitsAreNoLetters(text: string)
    requires Digits(text)
    ensures !ThreeLetters(text)
  {
    assert IsDigit(text[0]);
  }

  lemma DenotingIsAtom(text: string, position: nat, endsRange: bool, v: int)
    requires Denotes(text, position, endsRange, v)
    ensures IsAtom(text) && '-' !in text && '/' !in text && ',' !in text
  { }

  /** A separator that the first part does not hold ends it. */
  lemma {:induction false} SplitAfterFirst(first: string, separator: char, rest: string)
    requires separator !in first
    ensures Split(first + [separator] + rest, separator) == [first] + Split(rest, separator)
  {
    var s := first + [separator] + rest;
    if first == [] {
      assert s[0] == separator && s[1..] == rest;
    } else {
      assert s[0] == first[0] && s[1..] == first[1..] + [separator] + rest;
      SplitAfterFirst(first[1..], separator, rest);
      assert [first[0]] + first[1..] == first;
    }
  }

  lemma {:induction false} SplitOfGlued(parts: seq<string>, separator: char)
    requires parts != [] && forall p | p in parts :: separator !in p
    ensures Split(Glue(parts, separator), separator) == parts
  {
    if |parts| == 1 {
      Whole(parts[0], separator);
    } else {
      SplitOfGlued(parts[1..], separator);
      SplitAfterFirst(parts[0], separator, Glue(parts[1..], separator));
    }
  }

  lemma GlueOfTwo(first: string, last: string, separator: char)
    ensures Glue([first, last], separator) == first + [separator] + last
  {
    assert [first, last][1..] == [last];
  }

  lemma BoundsOfRange(position: nat, v: int)
    requires position < 5
    ensures InBounds(position, v) <==> RangeOf(position).0 <= v <= RangeOf(position).1
  { }

  /** Ranges hold no separator of items and steps. */
  lemma RangeIsClean(text: string, position: nat)
    requires IsRange(text, position)
    ensures '/' !in text && ',' !in text
  {
    if IsValue(text, position) {
      var v :| Denotes(text, position, false, v) && InBounds(position, v);
      DenotingIsAtom(text, position, false, v);
    } else {
      var first, last :| text == first + ['-'] + last && IsPair(first, last, position);
      PairIsAtoms(first, last, position);
    }
  }

  lemma PairIsAtoms(first: string, last: string, position: nat)
    requires IsPair(first, last, position)
    ensures IsAtom(first) && '-' !in first && '/' !in first && ',' !in first
    ensures IsAtom(last) && '-' !in last && '/' !in last && ',' !in last
  {
    hide Denotes;
    var v, w :| Denotes(first, position, false, v) && Denotes(last, position, true, w)
                && InBounds(position, v) && InBounds(position, w) && v <= w;
    DenotingIsAtom(first, position, false, v);
    DenotingIsAtom(last, position, true, w);
  }

  /** Without a slash the pattern is about the parts between dashes. */
  lemma MatchesByParts(token: string)
    requires '/' !in token
    ensures var parts := Split(token, '-');
            MatchesToken(token) <==> |parts| <= 2 && IsStart(parts[0]) && (|parts| == 2 ==> IsAtom(parts[1]))
  {
    Whole(token, '/');
  }

  lemma CheckedIsRange(token: string, position: nat)
    requires position < 5 && '/' !in token && CheckToken(token, position)
    ensures IsRange(token, position)
  {
    hide Denotes, FieldValue, MatchesToken, IsStart;
    MatchesByParts(token);
    var parts := Split(token, '-');
    var v := FieldValue(parts[0], position, false).value;
    ValueIsDenoted(parts[0], position, false, v);
    BoundsOfRange(position, v);
    if |parts| == 1 {
      assert IsValue(token, position);
    } else {
      var w := FieldValue(parts[1], position, true).value;
      AtomIsStart(parts[1]);
      ValueIsDenoted(parts[1], position, true, w);
      BoundsOfRange(position, w);
      assert IsPair(parts[0], parts[1], position);
      assert parts == [parts[0], parts[1]];
      GlueOfTwo(parts[0], parts[1], '-');
    }
  }

  lemma AtomIsStart(s: string)
    requires IsAtom(s)
    ensures IsStart(s)
  { }

  lemma RangeIsChecked(token: string, position: nat)
    requires position < 5 && IsRange(token, position)
    ensures CheckToken(token, position)
  {
    hide Denotes, FieldValue, MatchesToken, IsStart, IsAtom;
    RangeIsClean(token, position);
    MatchesByParts(token);
    if IsValue(token, position) {
      var v :| Denotes(token, position, false, v) && InBounds(position, v);
      DenotingIsAtom(token, position, false, v);
      AtomIsStart(token);
      Whole(token, '-');
      ValueIsDenoted(token, position, false, v);
      BoundsOfRange(position, v);
    } else {
      var first, last :| token == first + ['-'] + last && IsPair(first, last, position);
      PairIsAtoms(first, last, position);
      AtomIsStart(first);
      AtomIsStart(last);
      var v, w :| Denotes(first, position, false, v) && Denotes(last, position, true, w)
                  && InBounds(position, v) && InBounds(position, w) && v <= w;
      SplitAfterFirst(first, '-', last);
      Whole(last, '-');
      ValueIsDenoted(first, position, false, v);
      ValueIsDenoted(last, position, true, w);
      BoundsOfRange(position, v);
      BoundsOfRange(position, w);
    }
  }

  lemma DigitsAreClean(s: string)
    requires Digits(s)
    ensures '/' !in s && ',' !in s
  { }

  lemma ItemIsClean(text: string, position: nat)
    requires IsItem(text, position)
    ensures ',' !in text
  {
    hide IsRange, Digits;
    if IsRange(text, position) {
      RangeIsClean(text, position);
    } else {
      var base, step :| text == base + ['/'] + step && IsStepped(base, step, position);
      DigitsAreClean(step);
      if IsRange(base, position) { RangeIsClean(base, position); }
    }
  }

  lemma ValidTokenIsItem(token: string, position: nat)
    requires position < 5
    ensures ValidToken(token, position) <==> IsItem(token, position)
  {
    hide IsRange, CheckToken, Digits, Value;
    if ValidToken(token, position) {
      if '/' !in token {
        CheckedIsRange(token, position);
      } else {
        var parts := Split(token, '/');
        PartsAreClean(token, '/');
        assert parts == [parts[0], parts[1]];
        GlueOfTwo(parts[0], parts[1], '/');
        if parts[0] != "*" && parts[0] != "?" { CheckedIsRange(parts[0], position); }
        assert IsStepped(parts[0], parts[1], position);
      }
    }
    if IsItem(token, position) {
      if IsRange(token, position) {
        RangeIsClean(token, position);
        RangeIsChecked(token, position);
      } else {
        var base, step :| token == base + ['/'] + step && IsStepped(base, step, position);
        DigitsAreClean(step);
        if base != "*" && base != "?" {
          RangeIsClean(base, position);
          RangeIsChecked(base, position);
        }
        SplitAfterFirst(base, '/', step);
        Whole(step, '/');
        assert token[|base|] == '/';
      }
    }
  }

  /**
   The validator accepts exactly the five-field lists of stars and comma-separated items:
   values in their position's bounds, ranges of them that do not run backwards, and
   positive steps on either or on a star.
   */
  lemma AcceptsExactlyFields(fields: seq<string>)
    ensures ValidateCronExpression(fields) <==> |fields| == 5 && forall i | 0 <= i < 5 :: IsField(fields[i], i)
  {
    hide IsField, ValidField;
    if |fields| == 5 {
      forall i | 0 <= i < 5 ensures ValidField(fields[i], i) <==> IsField(fields[i], i) {
        ValidFieldIsField(fields[i], i);
      }
    }
  }

  lemma ValidFieldIsField(field: string, position: nat)
    requires position < 5
    ensures ValidField(field, position) <==> IsField(field, position)
  {
    hide ValidToken, IsItem;
    if field != "*" && field != "?" {
      if ValidField(field, position) {
        var items := Split(field, ',');
        forall item | item in items ensures IsItem(item, position) { ValidTokenIsItem(item, position); }
        assert IsList(field, position, items);
      }
      if IsField(field, position) {
        var items :| IsList(field, position, items);
        forall item | item in items ensures ',' !in item { ItemIsClean(item, position); }
        SplitOfGlued(items, ',');
        forall item | item in items ensures ValidToken(item, position) { ValidTokenIsItem(item, position); }
      }
    }
  }
}
