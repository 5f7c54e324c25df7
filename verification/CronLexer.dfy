/** The lexical white list that guards the cron parser. */
module CronLexer {
  import opened Triggers

  predicate IsDigit(b: byte) { 48 <= b <= 57 }

  predicate IsUpper(b: byte) { 65 <= b <= 90 }

  predicate IsLetter(b: byte) { IsUpper(b) || 97 <= b <= 122 }

  /** A digit or one of `*`, `?`, `,`, `-`, `/`. */
  predicate IsSymbol(b: byte) { IsDigit(b) || b == 42 || b == 63 || b == 44 || b == 45 || b == 47 }

  /** The bytes that continue a multi-byte UTF-8 character. */
  predicate IsContinuation(b: byte) { 128 <= b < 192 }

  function Upper(b: byte): byte { if 97 <= b <= 122 then b - 32 else b }

  function UpperAll(s: seq<byte>): seq<byte> {
    if s == [] then [] else [Upper(s[0])] + UpperAll(s[1..])
  }

  const MONTH_NAMES: set<seq<byte>> :=
    { [74, 65, 78], [70, 69, 66], [77, 65, 82], [65, 80, 82], [77, 65, 89], [74, 85, 78],
      [74, 85, 76], [65, 85, 71], [83, 69, 80], [79, 67, 84], [78, 79, 86], [68, 69, 67] }

  const WEEKDAY_NAMES: set<seq<byte>> :=
    { [83, 85, 78], [77, 79, 78], [84, 85, 69], [87, 69, 68], [84, 72, 85], [70, 82, 73], [83, 65, 84] }

  predicate IsName(s: seq<byte>, isMonth: bool, isWeekday: bool) {
    && |s| == 3
    && (forall i | 0 <= i < 3 :: IsLetter(s[i]))
    && ((isMonth && UpperAll(s) in MONTH_NAMES) || (isWeekday && UpperAll(s) in WEEKDAY_NAMES))
  }

  /** One lexeme: a symbol, or a name the position allows. */
  predicate IsLexeme(s: seq<byte>, isMonth: bool, isWeekday: bool) {
    (|s| == 1 && IsSymbol(s[0])) || IsName(s, isMonth, isWeekday)
  }

  function Join(lexemes: seq<seq<byte>>): seq<byte> {
    if lexemes == [] then [] else lexemes[0] + Join(lexemes[1..])
  }

  ghost predicate Composes(lexemes: seq<seq<byte>>, field: seq<byte>, isMonth: bool, isWeekday: bool) {
    Join(lexemes) == field && forall l | l in lexemes :: IsLexeme(l, isMonth, isWeekday)
  }

  /** What the white list is for: the field is a string of allowed lexemes. */
  ghost predicate IsStandardField(field: seq<byte>, isMonth: bool, isWeekday: bool) {
    exists lexemes :: Composes(lexemes, field, isMonth, isWeekday)
  }

  lemma ComposeMore(first: seq<byte>, rest: seq<byte>, isMonth: bool, isWeekday: bool)
    requires IsLexeme(first, isMonth, isWeekday)
    requires IsStandardField(rest, isMonth, isWeekday)
    ensures IsStandardField(first + rest, isMonth, isWeekday)
  {
    var lexemes :| Composes(lexemes, rest, isMonth, isWeekday);
    assert ([first] + lexemes)[1..] == lexemes;
    assert Composes([first] + lexemes, first + rest, isMonth, isWeekday);
  }

  /** A non-empty field starts with a lexeme that its first byte determines, and the rest is a field again. */
  lemma FirstLexeme(field: seq<byte>, isMonth: bool, isWeekday: bool)
    requires field != [] && IsStandardField(field, isMonth, isWeekday)
    ensures var n := if IsSymbol(field[0]) then 1 else 3;
            && n <= |field| && IsLexeme(field[..n], isMonth, isWeekday)
            && IsStandardField(field[n..], isMonth, isWeekday)
  {
    var lexemes :| Composes(lexemes, field, isMonth, isWeekday);
    var first, rest := lexemes[0], lexemes[1..];
    assert IsLexeme(first, isMonth, isWeekday) && field == first + Join(rest);
    assert field[..|first|] == first && field[|first|..] == Join(rest);
    assert field[0] == first[0];
    assert Composes(rest, Join(rest), isMonth, isWeekday);
  }

  /** The first three bytes of a name are letters, so a longer name never hides behind a shorter one. */
  method IsStandardCronField(field: seq<byte>, isMonth: bool, isWeekday: bool) returns (standard: bool)
    ensures standard <==> IsStandardField(field, isMonth, isWeekday)
  {
    var i := 0;
    while i < |field|
      invariant 0 <= i <= |field|
      invariant IsStandardField(field, isMonth, isWeekday) <==> IsStandardField(field[i..], isMonth, isWeekday)
    {
      var c := field[i];
      ghost var rest := field[i..];
      if IsStandardField(rest, isMonth, isWeekday) { FirstLexeme(rest, isMonth, isWeekday); }
      if IsSymbol(c) {
        assert rest == [c] + field[i + 1..] && rest[1..] == field[i + 1..];
        if IsStandardField(field[i + 1..], isMonth, isWeekday) {
          ComposeMore([c], field[i + 1..], isMonth, isWeekday);
        }
        i := i + 1;
        continue;
      }
      if IsLetter(c) {
        if i + 3 < |field| && IsStandardField(rest[3..], isMonth, isWeekday) {
          FirstLexeme(rest[3..], isMonth, isWeekday);
        }
        if |field| < i + 3 || (i + 3 < |field| && IsContinuation(field[i + 3])) {
          return false;
        }
        var name := field[i..i + 3];
        assert rest[..3] == name && rest[3..] == field[i + 3..] && rest == name + field[i + 3..];
        if !(IsLetter(name[0]) && IsLetter(name[1]) && IsLetter(name[2])) {
          return false;
        }
        var upper := UpperAll(name);
        var known := (isMonth && upper in MONTH_NAMES) || (isWeekday && upper in WEEKDAY_NAMES);
        if !known {
          return false;
        }
        if IsStandardField(field[i + 3..], isMonth, isWeekday) {
          ComposeMore(name, field[i + 3..], isMonth, isWeekday);
        }
        i := i + 3;
        continue;
      }
      return false;
    }
    assert Composes([], field[i..], isMonth, isWeekday);
    return true;
  }

  predicate IsPlain(field: seq<byte>) {
    forall i | 0 <= i < |field| :: 48 <= field[i] <= 57 || field[i] == 42 || field[i] == 63 || 44 <= field[i] <= 45
                                   || field[i] == 47
  }

  /** In the positions without names only digits and `* ? , - /` pass: no letter, no other sign. */
  lemma {:induction false} OnlyPlainBytes(field: seq<byte>)
    ensures IsStandardField(field, false, false) <==> IsPlain(field)
    decreases |field|
  {
    if field == [] {
      assert Composes([], field, false, false);
    } else {
      OnlyPlainBytes(field[1..]);
      if IsStandardField(field, false, false) { FirstLexeme(field, false, false); }
      if IsPlain(field) {
        assert field == [field[0]] + field[1..];
        ComposeMore([field[0]], field[1..], false, false);
      }
    }
  }
}
