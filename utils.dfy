/**
 * nexus-core/utils.js: duration formatting, truncation, the admin checks on the global
 * config and the retry count of `safeApiCall`. Durations are whole milliseconds; the
 * rendered text is specified by the list of units it shows, and a parser reads that
 * list back.
 */
module Utils {
  import opened Options
  import opened JsStrings
  import ConfigLoader

  /** One rendered unit: `${value}${unit}`. */
  datatype Amount = Amount(value: nat, unit: char)

  function Piece(a: Amount): string {
    NatToString(a.value) + [a.unit]
  }

  function Pieces(us: seq<Amount>): (ps: seq<string>)
    ensures |ps| == |us| && forall i :: 0 <= i < |us| ==> ps[i] == Piece(us[i])
  {
    seq(|us|, i requires 0 <= i < |us| => Piece(us[i]))
  }

  /** The units written one after the other with `sep` between them. */
  function Render(us: seq<Amount>, sep: string): string {
    Join(Pieces(us), sep)
  }

  /** Reads back what `Render` writes: digits, a unit character, then `sep` or the end. */
  function Parse(s: string, sep: string): Option<seq<Amount>>
    decreases |s|
  {
    if s == [] then Some([])
    else
      var k := DigitCount(s);
      if k == 0 || k == |s| then None
      else
        var a := Amount(DigitsValue(s[..k]), s[k]);
        var rest := s[k + 1..];
        if rest == [] then Some([a])
        else if !StartsWith(rest, sep) then None
        else
          match Parse(rest[|sep|..], sep)
          case None => None
          case Some(more) => Some([a] + more)
  }

  predicate UnitsReadable(us: seq<Amount>) {
    forall i :: 0 <= i < |us| ==> !IsDigit(us[i].unit)
  }

  lemma {:induction false} JoinHead(xs: seq<string>, sep: string)
    requires |xs| >= 2
    ensures Join(xs, sep) == xs[0] + sep + Join(xs[1..], sep)
  {
  }

  lemma {:induction false} JoinNonEmpty(xs: seq<string>, sep: string)
    requires xs != [] && forall i :: 0 <= i < |xs| ==> xs[i] != []
    ensures Join(xs, sep) != []
  {
  }

  /** The first unit of a rendering: its digits, then its unit character, then the rest. */
  lemma ParseHead(v: nat, u: char, tail: string)
    requires !IsDigit(u)
    ensures var s := NatToString(v) + ([u] + tail); var k := DigitCount(s);
      k == |NatToString(v)| && 0 < k < |s| && s[..k] == NatToString(v) && s[k] == u && s[k + 1..] == tail
  {
    var ds := NatToString(v);
    var s := ds + ([u] + tail);
    DigitCountOfDigitsThen(ds, [u] + tail);
    assert s[..|ds|] == ds;
    assert s[|ds| + 1..] == tail;
  }

  /** A rendering of two or more units: the first piece, the separator, then the rest rendered. */
  lemma RenderHead(us: seq<Amount>, sep: string)
    requires us != [] && UnitsReadable(us)
    ensures var tail := if |us| == 1 then [] else sep + Render(us[1..], sep);
      Render(us, sep) == NatToString(us[0].value) + ([us[0].unit] + tail)
      && (|us| >= 2 ==> StartsWith(tail, sep) && tail[|sep|..] == Render(us[1..], sep))
  {
    assert Pieces(us)[1..] == Pieces(us[1..]);
    if |us| >= 2 {
      JoinHead(Pieces(us), sep);
      var tail := sep + Render(us[1..], sep);
      assert tail[..|sep|] == sep;
      assert tail[|sep|..] == Render(us[1..], sep);
    }
  }

  /** `Parse` reads one unit off the front of a rendering and continues after the separator. */
  lemma ParseCons(a: Amount, tail: string, sep: string)
    requires !IsDigit(a.unit)
    ensures Parse(NatToString(a.value) + ([a.unit] + tail), sep) ==
      if tail == [] then Some([a])
      else if !StartsWith(tail, sep) then None
      else match Parse(tail[|sep|..], sep)
        case None => None
        case Some(more) => Some([a] + more)
  {
    ParseHead(a.value, a.unit, tail);
    DigitsValueOfNatToString(a.value);
  }

  /** Every rendering reads back as the units it was made from. */
  lemma {:induction false} ParseRender(us: seq<Amount>, sep: string)
    requires UnitsReadable(us)
    ensures Parse(Render(us, sep), sep) == Some(us)
    decreases |us|
  {
    if us != [] {
      var tail := if |us| == 1 then [] else sep + Render(us[1..], sep);
      RenderHead(us, sep);
      ParseCons(us[0], tail, sep);
      if |us| >= 2 {
        assert UnitsReadable(us[1..]);
        ParseRender(us[1..], sep);
        assert [us[0]] + us[1..] == us;
      } else {
        assert [us[0]] == us;
      }
    }
  }

  /** How many seconds a unit stands for: 30-day months and 12-month years. */
  function UnitSeconds(unit: char): nat {
    if unit == 'y' then 31104000
    else if unit == 'M' then 2592000
    else if unit == 'd' then 86400
    else if unit == 'h' then 3600
    else if unit == 'm' then 60
    else if unit == 's' then 1
    else 0
  }

  /** The number of seconds a list of units adds up to. */
  function Seconds(us: seq<Amount>): nat
    decreases |us|
  {
    if us == [] then 0 else us[0].value * UnitSeconds(us[0].unit) + Seconds(us[1..])
  }

  lemma {:induction false} SecondsAppend(a: seq<Amount>, b: seq<Amount>)
    ensures Seconds(a + b) == Seconds(a) + Seconds(b)
    decreases |a|
  {
    if a == [] {
      assert a + b == b;
    } else {
      assert (a + b)[0] == a[0] && (a + b)[1..] == a[1..] + b;
      SecondsAppend(a[1..], b);
    }
  }

  function UnitIf(value: nat, unit: char): seq<Amount> {
    if value != 0 then [Amount(value, unit)] else []
  }

  /** The seconds unit: shown when it is non-zero or nothing else was shown. */
  function SecondsUnit(value: nat, before: seq<Amount>): seq<Amount> {
    if value != 0 || before == [] then [Amount(value, 's')] else []
  }

  /** What `formatDuration(ms)` shows: whole days, then hours, minutes and seconds within them. */
  function DurationUnits(ms: nat): seq<Amount> {
    var t := ms / 1000;
    var pre := UnitIf(t / 86400, 'd') + UnitIf(t / 3600 % 24, 'h') + UnitIf(t / 60 % 60, 'm');
    pre + SecondsUnit(t % 60, pre)
  }

  /** What `convertTime(ms)` shows: years, months, days, hours, minutes and seconds. */
  function TimeUnits(ms: nat): seq<Amount> {
    var t := ms / 1000;
    var pre := UnitIf(t / 31104000, 'y') + UnitIf(t / 2592000 % 12, 'M') + UnitIf(t / 86400 % 30, 'd')
               + UnitIf(t / 3600 % 24, 'h') + UnitIf(t / 60 % 60, 'm');
    pre + SecondsUnit(t % 60, pre)
  }

  lemma DurationArithmetic(ms: nat)
    ensures ms / 60000 == ms / 1000 / 60
    ensures ms / 3600000 == ms / 1000 / 3600
    ensures ms / 86400000 == ms / 1000 / 86400
    ensures var t := ms / 1000; t == t / 86400 * 86400 + t / 3600 % 24 * 3600 + t / 60 % 60 * 60 + t % 60
  {
    var t := ms / 1000;
    var m := t / 60;
    var h := m / 60;
    var d := h / 24;
    assert t / 3600 == h;
    assert t / 86400 == d;
  }

  lemma TimeArithmetic(t: nat)
    ensures t == t / 31104000 * 31104000 + t / 2592000 % 12 * 2592000 + t / 86400 % 30 * 86400
               + t / 3600 % 24 * 3600 + t / 60 % 60 * 60 + t % 60
  {
    var m := t / 60;
    var h := m / 60;
    var d := h / 24;
    var mo := d / 30;
    assert t / 3600 == h;
    assert t / 86400 == d;
    assert t / 2592000 == mo;
    assert t / 31104000 == mo / 12;
  }

  lemma SecondsOfUnitIf(value: nat, unit: char)
    ensures Seconds(UnitIf(value, unit)) == value * UnitSeconds(unit)
  {
  }

  function Layout(pre: seq<Amount>, sec: nat): seq<Amount> {
    pre + SecondsUnit(sec, pre)
  }

  lemma SecondsOfLayout(pre: seq<Amount>, sec: nat)
    ensures Seconds(Layout(pre, sec)) == Seconds(pre) + sec
  {
    SecondsAppend(pre, SecondsUnit(sec, pre));
  }

  lemma SecondsOfFive(y: nat, mo: nat, d: nat, h: nat, mi: nat)
    ensures Seconds(UnitIf(y, 'y') + UnitIf(mo, 'M') + UnitIf(d, 'd') + UnitIf(h, 'h') + UnitIf(mi, 'm'))
         == y * 31104000 + mo * 2592000 + d * 86400 + h * 3600 + mi * 60
  {
    SecondsAppend(UnitIf(y, 'y'), UnitIf(mo, 'M'));
    SecondsAppend(UnitIf(y, 'y') + UnitIf(mo, 'M'), UnitIf(d, 'd'));
    SecondsAppend(UnitIf(y, 'y') + UnitIf(mo, 'M') + UnitIf(d, 'd'), UnitIf(h, 'h'));
    SecondsAppend(UnitIf(y, 'y') + UnitIf(mo, 'M') + UnitIf(d, 'd') + UnitIf(h, 'h'), UnitIf(mi, 'm'));
    SecondsOfUnitIf(y, 'y');
    SecondsOfUnitIf(mo, 'M');
    SecondsOfUnitIf(d, 'd');
    SecondsOfUnitIf(h, 'h');
    SecondsOfUnitIf(mi, 'm');
  }

  /** Units each shown only when non-zero, each with a letter for its unit. */
  predicate AllShown(pre: seq<Amount>) {
    forall i :: 0 <= i < |pre| ==> pre[i].value != 0 && !IsDigit(pre[i].unit) && !IsWhitespace(pre[i].unit)
  }

  lemma ShownThen(pre: seq<Amount>, value: nat, unit: char)
    requires AllShown(pre) && !IsDigit(unit) && !IsWhitespace(unit)
    ensures AllShown(pre + UnitIf(value, unit))
  {
  }

  /** Shown units followed by the seconds unit: only the last may be zero, and it is `s`. */
  lemma LayoutShape(pre: seq<Amount>, sec: nat)
    requires AllShown(pre)
    ensures var us := Layout(pre, sec);
      && us != [] && UnitsReadable(us) && !IsWhitespace(us[|us| - 1].unit)
      && forall i :: 0 <= i < |us| - 1 ==> us[i].value != 0
  {
  }

  lemma DayArithmetic(t: nat)
    ensures t == t / 86400 * 86400 + t / 3600 % 24 * 3600 + t / 60 % 60 * 60 + t % 60
  {
    var m := t / 60;
    var h := m / 60;
    assert t / 3600 == h;
    assert t / 86400 == h / 24;
  }

  lemma SecondsOfThree(d: nat, h: nat, mi: nat)
    ensures Seconds(UnitIf(d, 'd') + UnitIf(h, 'h') + UnitIf(mi, 'm')) == d * 86400 + h * 3600 + mi * 60
  {
    SecondsAppend(UnitIf(d, 'd'), UnitIf(h, 'h'));
    SecondsAppend(UnitIf(d, 'd') + UnitIf(h, 'h'), UnitIf(mi, 'm'));
    SecondsOfUnitIf(d, 'd');
    SecondsOfUnitIf(h, 'h');
    SecondsOfUnitIf(mi, 'm');
  }

  lemma DurationSeconds(ms: nat)
    ensures Seconds(DurationUnits(ms)) == ms / 1000
  {
    var t := ms / 1000;
    var d, h, mi, sec := t / 86400, t / 3600 % 24, t / 60 % 60, t % 60;
    var pre := UnitIf(d, 'd') + UnitIf(h, 'h') + UnitIf(mi, 'm');
    assert DurationUnits(ms) == Layout(pre, sec);
    SecondsOfLayout(pre, sec);
    SecondsOfThree(d, h, mi);
    DayArithmetic(t);
  }

  lemma DurationShape(ms: nat)
    ensures var us := DurationUnits(ms);
      && us != [] && UnitsReadable(us) && !IsWhitespace(us[|us| - 1].unit)
      && forall i :: 0 <= i < |us| - 1 ==> us[i].value != 0
  {
    var t := ms / 1000;
    var d, h, mi := t / 86400, t / 3600 % 24, t / 60 % 60;
    ShownThen([], d, 'd');
    assert [] + UnitIf(d, 'd') == UnitIf(d, 'd');
    ShownThen(UnitIf(d, 'd'), h, 'h');
    ShownThen(UnitIf(d, 'd') + UnitIf(h, 'h'), mi, 'm');
    LayoutShape(UnitIf(d, 'd') + UnitIf(h, 'h') + UnitIf(mi, 'm'), t % 60);
  }

  /**
   * `formatDuration`: the units add up to the whole seconds of `ms`; every unit shown is
   * non-zero unless nothing else is, so below one second the result is `0s`.
   */
  lemma DurationUnitsMeaning(ms: nat)
    ensures Seconds(DurationUnits(ms)) == ms / 1000
    ensures UnitsReadable(DurationUnits(ms)) && DurationUnits(ms) != []
    ensures forall i :: 0 <= i < |DurationUnits(ms)| - 1 ==> DurationUnits(ms)[i].value != 0
    ensures ms < 1000 ==> DurationUnits(ms) == [Amount(0, 's')] && Render(DurationUnits(ms), " ") == "0s"
  {
    DurationSeconds(ms);
    DurationShape(ms);
    if ms < 1000 {
      assert DurationUnits(ms) == [Amount(0, 's')];
      assert Render(DurationUnits(ms), " ") == Piece(Amount(0, 's'));
    }
  }

  lemma TimeUnitsLayout(ms: nat, y: nat, mo: nat, d: nat, h: nat, mi: nat, sec: nat)
    requires var t := ms / 1000;
      y == t / 31104000 && mo == t / 2592000 % 12 && d == t / 86400 % 30 && h == t / 3600 % 24 && mi == t / 60 % 60 && sec == t % 60
    ensures TimeUnits(ms) == Layout(UnitIf(y, 'y') + UnitIf(mo, 'M') + UnitIf(d, 'd') + UnitIf(h, 'h') + UnitIf(mi, 'm'), sec)
  {
  }

  lemma TimeSeconds(ms: nat)
    ensures Seconds(TimeUnits(ms)) == ms / 1000
  {
    var t := ms / 1000;
    var y, mo, d, h, mi, sec := t / 31104000, t / 2592000 % 12, t / 86400 % 30, t / 3600 % 24, t / 60 % 60, t % 60;
    TimeUnitsLayout(ms, y, mo, d, h, mi, sec);
    var pre := UnitIf(y, 'y') + UnitIf(mo, 'M') + UnitIf(d, 'd') + UnitIf(h, 'h') + UnitIf(mi, 'm');
    SecondsOfLayout(pre, sec);
    SecondsOfFive(y, mo, d, h, mi);
    TimeArithmetic(t);
  }

  lemma TimeShape(ms: nat)
    ensures TimeUnits(ms) != [] && UnitsReadable(TimeUnits(ms))
  {
    var t := ms / 1000;
    var y, mo, d, h, mi := t / 31104000, t / 2592000 % 12, t / 86400 % 30, t / 3600 % 24, t / 60 % 60;
    ShownThen([], y, 'y');
    assert [] + UnitIf(y, 'y') == UnitIf(y, 'y');
    ShownThen(UnitIf(y, 'y'), mo, 'M');
    ShownThen(UnitIf(y, 'y') + UnitIf(mo, 'M'), d, 'd');
    ShownThen(UnitIf(y, 'y') + UnitIf(mo, 'M') + UnitIf(d, 'd'), h, 'h');
    ShownThen(UnitIf(y, 'y') + UnitIf(mo, 'M') + UnitIf(d, 'd') + UnitIf(h, 'h'), mi, 'm');
    LayoutShape(UnitIf(y, 'y') + UnitIf(mo, 'M') + UnitIf(d, 'd') + UnitIf(h, 'h') + UnitIf(mi, 'm'), t % 60);
  }

  /** `convertTime`: the units recombine to the whole seconds of `ms`. */
  lemma TimeUnitsMeaning(ms: nat)
    ensures Seconds(TimeUnits(ms)) == ms / 1000
    ensures UnitsReadable(TimeUnits(ms)) && TimeUnits(ms) != []
    ensures ms < 1000 ==> Render(TimeUnits(ms), "") == "0s"
  {
    TimeSeconds(ms);
    TimeShape(ms);
    if ms < 1000 {
      assert TimeUnits(ms) == [Amount(0, 's')];
      assert Render(TimeUnits(ms), "") == Piece(Amount(0, 's'));
    }
  }

  /** The pieces of `us`, each followed by `sep`. */
  function Terminated(us: seq<Amount>, sep: string): string
    decreases |us|
  {
    if us == [] then "" else Piece(us[0]) + sep + Terminated(us[1..], sep)
  }

  lemma {:induction false} TerminatedAppend(us: seq<Amount>, a: Amount, sep: string)
    ensures Terminated(us + [a], sep) == Terminated(us, sep) + Piece(a) + sep
    decreases |us|
  {
    if us == [] {
      assert us + [a] == [a];
    } else {
      assert (us + [a])[0] == us[0] && (us + [a])[1..] == us[1..] + [a];
      TerminatedAppend(us[1..], a, sep);
    }
  }

  /** Text ending in a separator followed by a last piece is the joined rendering. */
  lemma {:induction false} TerminatedThenPiece(us: seq<Amount>, a: Amount, sep: string)
    ensures Terminated(us, sep) + Piece(a) == Render(us + [a], sep)
    decreases |us|
  {
    if us == [] {
      assert us + [a] == [a];
      assert Pieces([a]) == [Piece(a)];
    } else {
      var v := us + [a];
      assert v[0] == us[0] && v[1..] == us[1..] + [a];
      TerminatedThenPiece(us[1..], a, sep);
      assert Pieces(v)[1..] == Pieces(v[1..]);
      JoinHead(Pieces(v), sep);
    }
  }

  lemma RenderEnds(us: seq<Amount>, sep: string)
    requires us != [] && UnitsReadable(us)
    ensures var r := Render(us, sep); r != [] && IsDigit(r[0]) && r[|r| - 1] == us[|us| - 1].unit
    decreases |us|
  {
    var r := Render(us, sep);
    if |us| == 1 {
      assert r == Piece(us[0]);
    } else {
      JoinHead(Pieces(us), sep);
      assert Pieces(us)[1..] == Pieces(us[1..]);
      RenderEnds(us[1..], sep);
      assert us[1..][|us[1..]| - 1] == us[|us| - 1];
    }
  }

  lemma TrimUntouched(s: string)
    requires s != [] && !IsWhitespace(s[0]) && !IsWhitespace(s[|s| - 1])
    ensures Trim(s) == s && Trim(s + " ") == s
  {
    assert (s + " ")[..|s|] == s;
    assert TrimEnd(s + " ") == TrimEnd(s);
  }

  lemma DurationUnitsLayout(ms: nat, day: nat, hr: nat, min: nat, sec: nat)
    requires day == ms / 86400000 && hr == ms / 3600000 % 24 && min == ms / 60000 % 60 && sec == ms / 1000 % 60
    ensures DurationUnits(ms) == Layout(UnitIf(day, 'd') + UnitIf(hr, 'h') + UnitIf(min, 'm'), sec)
  {
    DurationArithmetic(ms);
  }

  /** Closing the rendering: the seconds piece ends it, or else the last separator is dropped. */
  lemma CloseLayout(shown: seq<Amount>, sec: nat, sep: string)
    ensures sec != 0 || shown == [] ==> Terminated(shown, sep) + Piece(Amount(sec, 's')) == Render(Layout(shown, sec), sep)
    ensures sec == 0 && shown != [] ==> Terminated(shown, sep) == Render(Layout(shown, sec), sep) + sep
  {
    if sec != 0 || shown == [] {
      TerminatedThenPiece(shown, Amount(sec, 's'), sep);
    } else {
      var init, last := shown[..|shown| - 1], shown[|shown| - 1];
      assert shown == init + [last];
      TerminatedAppend(init, last, sep);
      TerminatedThenPiece(init, last, sep);
      assert Layout(shown, sec) == shown + [];
      assert shown + [] == shown;
    }
  }

  lemma TerminatedEmpty(shown: seq<Amount>, sep: string)
    ensures Terminated(shown, sep) == "" <==> shown == []
  {
  }

  lemma {:induction false} TerminatedConcat(a: seq<Amount>, b: seq<Amount>, sep: string)
    ensures Terminated(a + b, sep) == Terminated(a, sep) + Terminated(b, sep)
    decreases |a|
  {
    if a == [] {
      assert a + b == b;
    } else {
      assert (a + b)[0] == a[0] && (a + b)[1..] == a[1..] + b;
      TerminatedConcat(a[1..], b, sep);
    }
  }

  /** What one `if (x) str += ...` step appends. */
  function Spaced(value: nat, unit: char, sep: string): (r: string)
    ensures r == Terminated(UnitIf(value, unit), sep)
  {
    if value != 0 then Piece(Amount(value, unit)) + sep else ""
  }

  lemma FinishTrim(ms: nat)
    ensures var r := Render(DurationUnits(ms), " "); Trim(r) == r && Trim(r + " ") == r
  {
    var us := DurationUnits(ms);
    DurationShape(ms);
    RenderEnds(us, " ");
    TrimUntouched(Render(us, " "));
  }

  /** The last step of `formatDuration`: the seconds piece when due, then `trim`. */
  lemma CloseDuration(ms: nat, day: nat, hr: nat, min: nat, sec: nat, str: string)
    requires day == ms / 86400000 && hr == ms / 3600000 % 24 && min == ms / 60000 % 60 && sec == ms / 1000 % 60
    requires str == Spaced(day, 'd', " ") + Spaced(hr, 'h', " ") + Spaced(min, 'm', " ")
    ensures Trim(if sec != 0 || str == "" then str + Piece(Amount(sec, 's')) else str) == Render(DurationUnits(ms), " ")
  {
    var pre := UnitIf(day, 'd') + UnitIf(hr, 'h') + UnitIf(min, 'm');
    TerminatedConcat(UnitIf(day, 'd'), UnitIf(hr, 'h'), " ");
    TerminatedConcat(UnitIf(day, 'd') + UnitIf(hr, 'h'), UnitIf(min, 'm'), " ");
    assert str == Terminated(pre, " ");
    TerminatedEmpty(pre, " ");
    DurationUnitsLayout(ms, day, hr, min, sec);
    CloseLayout(pre, sec, " ");
    FinishTrim(ms);
  }

  /** `formatDuration(ms)`. */
  method FormatDuration(ms: nat) returns (r: string)
    ensures r == Render(DurationUnits(ms), " ")
  {
    var sec := ms / 1000 % 60;
    var min := ms / 60000 % 60;
    var hr := ms / 3600000 % 24;
    var day := ms / 86400000;
    var str := "";
    if day != 0 {
      str := str + Piece(Amount(day, 'd')) + " ";
    }
    assert str == Spaced(day, 'd', " ");
    if hr != 0 {
      str := str + Piece(Amount(hr, 'h')) + " ";
    }
    assert str == Spaced(day, 'd', " ") + Spaced(hr, 'h', " ");
    if min != 0 {
      str := str + Piece(Amount(min, 'm')) + " ";
    }
    assert str == Spaced(day, 'd', " ") + Spaced(hr, 'h', " ") + Spaced(min, 'm', " ");
    CloseDuration(ms, day, hr, min, sec, str);
    if sec != 0 || str == "" {
      str := str + Piece(Amount(sec, 's'));
    }
    r := Trim(str);
  }

  /** The last step of `convertTime`: the seconds piece when due. */
  lemma CloseTime(ms: nat, year: nat, month: nat, day: nat, hour: nat, minute: nat, second: nat, formatted: string)
    requires var t := ms / 1000;
      year == t / 31104000 && month == t / 2592000 % 12 && day == t / 86400 % 30 && hour == t / 3600 % 24
      && minute == t / 60 % 60 && second == t % 60
    requires formatted == Spaced(year, 'y', "") + Spaced(month, 'M', "") + Spaced(day, 'd', "")
                          + Spaced(hour, 'h', "") + Spaced(minute, 'm', "")
    ensures (if second != 0 || formatted == "" then formatted + Piece(Amount(second, 's')) else formatted)
         == Render(TimeUnits(ms), "")
  {
    var y, mo, d, h, mi := UnitIf(year, 'y'), UnitIf(month, 'M'), UnitIf(day, 'd'), UnitIf(hour, 'h'), UnitIf(minute, 'm');
    TerminatedConcat(y, mo, "");
    TerminatedConcat(y + mo, d, "");
    TerminatedConcat(y + mo + d, h, "");
    TerminatedConcat(y + mo + d + h, mi, "");
    var pre := y + mo + d + h + mi;
    assert formatted == Terminated(pre, "");
    TerminatedEmpty(pre, "");
    TimeUnitsLayout(ms, year, month, day, hour, minute, second);
    CloseLayout(pre, second, "");
    EmptySeparator(Render(Layout(pre, second), ""));
  }

  lemma EmptySeparator(s: string)
    ensures s + "" == s
  {
  }

  /** `convertTime(ms)`. */
  method ConvertTime(ms: nat) returns (formatted: string)
    ensures formatted == Render(TimeUnits(ms), "")
  {
    var t := ms / 1000;
    var second := t % 60;
    var minute := t / 60 % 60;
    var hour := t / 3600 % 24;
    var day := t / 86400 % 30;
    var month := t / 2592000 % 12;
    var year := t / 31104000;
    formatted := "";
    if year != 0 {
      formatted := formatted + Piece(Amount(year, 'y'));
    }
    assert formatted == Spaced(year, 'y', "");
    if month != 0 {
      formatted := formatted + Piece(Amount(month, 'M'));
    }
    assert formatted == Spaced(year, 'y', "") + Spaced(month, 'M', "");
    if day != 0 {
      formatted := formatted + Piece(Amount(day, 'd'));
    }
    assert formatted == Spaced(year, 'y', "") + Spaced(month, 'M', "") + Spaced(day, 'd', "");
    if hour != 0 {
      formatted := formatted + Piece(Amount(hour, 'h'));
    }
    assert formatted == Spaced(year, 'y', "") + Spaced(month, 'M', "") + Spaced(day, 'd', "") + Spaced(hour, 'h', "");
    if minute != 0 {
      formatted := formatted + Piece(Amount(minute, 'm'));
    }
    assert formatted == Spaced(year, 'y', "") + Spaced(month, 'M', "") + Spaced(day, 'd', "") + Spaced(hour, 'h', "")
                        + Spaced(minute, 'm', "");
    CloseTime(ms, year, month, day, hour, minute, second, formatted);
    if second != 0 || formatted == "" {
      formatted := formatted + Piece(Amount(second, 's'));
    }
  }

  /** `truncate(str, len)`: strings longer than `len` are cut to `len` characters and marked with `...`. */
  function Truncate(s: string, len: nat): (r: string)
    ensures |s| <= len ==> r == s
    ensures |s| > len ==> |r| == len + 3 && StartsWith(s, r[..len]) && r[len..] == "..."
  {
    if |s| > len then s[..len] + "..." else s
  }

  /** `truncate(str)` with the default length. */
  function TruncateDefault(s: string): (r: string)
    ensures |r| <= 103 && (|s| <= 100 ==> r == s)
  {
    Truncate(s, 100)
  }

  type Json = ConfigLoader.Json

  /** `(global.config || {})[key]`: `None` when there is no config or it lacks the key. */
  function ConfigField(config: Option<Json>, key: string): Option<Json> {
    if config.Some? && config.value.JObj? && key in config.value.fields then Some(config.value.fields[key]) else None
  }

  /** The truth value `isAdmin` returns, or the TypeError it throws. */
  datatype AdminCheck = Granted | Denied | Threw

  /**
   * `isAdmin(userID)`: `config.admins && config.admins.includes(userID)`. An array tests
   * membership, a string tests for a substring, and any other truthy value has no `includes`.
   */
  function IsAdmin(config: Option<Json>, userID: string): AdminCheck {
    match ConfigField(config, "admins")
    case None => Denied
    case Some(v) =>
      if !ConfigLoader.Truthy(v) then Denied
      else
        match v
        case JArr(xs) => if ConfigLoader.JStr(userID) in xs then Granted else Denied
        case JStr(text) => if Contains(text, userID) then Granted else Denied
        case _ => Threw
  }

  /** With an `admins` array, `isAdmin` never throws and grants exactly the listed ids. */
  lemma IsAdminListed(config: Option<Json>, xs: seq<Json>, userID: string)
    requires ConfigField(config, "admins") == Some(ConfigLoader.JArr(xs))
    ensures IsAdmin(config, userID) != Threw
    ensures IsAdmin(config, userID) == Granted <==> ConfigLoader.JStr(userID) in xs
  {
  }

  /** The config with its `admins` array replaced. */
  function WithAdmins(fields: map<string, Json>, xs: seq<Json>): Option<Json> {
    Some(ConfigLoader.JObj(fields["admins" := ConfigLoader.JArr(xs)]))
  }

  /** Adding an id to an `admins` array grants that id and leaves every other id's answer as it was. */
  lemma IsAdminAfterAdd(fields: map<string, Json>, xs: seq<Json>, id: string, other: string)
    requires other != id
    ensures IsAdmin(WithAdmins(fields, ConfigLoader.AddId(xs, id)), id) == Granted
    ensures IsAdmin(WithAdmins(fields, ConfigLoader.AddId(xs, id)), other) == IsAdmin(WithAdmins(fields, xs), other)
  {
    var ys := ConfigLoader.AddId(xs, id);
    assert ConfigLoader.JStr(id) in ys;
    assert ConfigLoader.JStr(other) in ys <==> ConfigLoader.JStr(other) in xs;
  }

  /**
   * Removing the only occurrence of an id from an `admins` array revokes it, and every
   * other id's answer stays as it was.
   */
  lemma IsAdminAfterRemove(fields: map<string, Json>, xs: seq<Json>, id: string, other: string)
    requires multiset(xs)[ConfigLoader.JStr(id)] <= 1 && other != id
    ensures IsAdmin(WithAdmins(fields, ConfigLoader.RemoveFirst(xs, id)), id) == Denied
    ensures IsAdmin(WithAdmins(fields, ConfigLoader.RemoveFirst(xs, id)), other) == IsAdmin(WithAdmins(fields, xs), other)
  {
    var ys := ConfigLoader.RemoveFirst(xs, id);
    var mine, theirs := ConfigLoader.JStr(id), ConfigLoader.JStr(other);
    ConfigLoader.RemoveFirstOccurrence(xs, id);
    assert multiset(ys)[mine] == 0 && mine !in ys;
    assert multiset(ys)[theirs] == multiset(xs)[theirs];
    assert theirs in ys <==> theirs in xs;
    IsAdminListed(WithAdmins(fields, ys), ys, id);
    IsAdminListed(WithAdmins(fields, ys), ys, other);
    IsAdminListed(WithAdmins(fields, xs), xs, other);
  }

  /**
   * With a non-empty string `admins`, `isAdmin` never throws and grants exactly the ids
   * that occur in it as substrings; an empty string is falsy and grants nobody.
   */
  lemma IsAdminText(config: Option<Json>, text: string, userID: string)
    requires ConfigField(config, "admins") == Some(ConfigLoader.JStr(text))
    ensures IsAdmin(config, userID) != Threw
    ensures IsAdmin(config, userID) == Granted <==> text != "" && Contains(text, userID)
  {
  }

  /** An instance of `IsAdminText`: a prefix of the listed id is granted too. */
  lemma AdminStringGrantsSubstrings()
    ensures IsAdmin(Some(ConfigLoader.JObj(map["admins" := ConfigLoader.JStr("100072936185948")])), "1000") == Granted
  {
    assert StartsWith("100072936185948", "1000");
  }

  /**
   * The default configuration lists its admin under `adminIDs`, which `isAdmin` does not
   * read, so with the defaults alone nobody is an admin and nobody is the owner.
   */
  lemma DefaultsGrantNobody(userID: string)
    ensures IsAdmin(Some(ConfigLoader.Defaults), userID) == Denied
    ensures !IsSuperAdmin(Some(ConfigLoader.Defaults), userID)
  {
    assert "admins" !in ConfigLoader.Defaults.fields;
    assert "owner" !in ConfigLoader.Defaults.fields;
  }

  /**
   * `addAdmin` and `removeAdmin` edit `adminIDs`, a key `isAdmin` does not read: an edit
   * they make never changes any user's answer.
   */
  lemma AdminEditsDoNotReachIsAdmin(fields: map<string, Json>, id: string, userID: string)
    ensures ConfigLoader.AddAdminTo(fields, id).Changed? ==>
      IsAdmin(Some(ConfigLoader.JObj(ConfigLoader.AddAdminTo(fields, id).fields)), userID) == IsAdmin(Some(ConfigLoader.JObj(fields)), userID)
    ensures ConfigLoader.RemoveAdminFrom(fields, id).Changed? ==>
      IsAdmin(Some(ConfigLoader.JObj(ConfigLoader.RemoveAdminFrom(fields, id).fields)), userID) == IsAdmin(Some(ConfigLoader.JObj(fields)), userID)
  {
  }

  /** `isSuperAdmin(userID)`: `config.owner && config.owner === userID`. */
  function IsSuperAdmin(config: Option<Json>, userID: string): (r: bool)
    ensures r <==> ConfigField(config, "owner") == Some(ConfigLoader.JStr(userID)) && userID != ""
  {
    match ConfigField(config, "owner")
    case None => false
    case Some(v) => ConfigLoader.Truthy(v) && v == ConfigLoader.JStr(userID)
  }

  /** There is at most one owner, and an owner that is not a string (a number, say) matches no id. */
  lemma SuperAdminUnique(config: Option<Json>, a: string, b: string)
    ensures IsSuperAdmin(config, a) && IsSuperAdmin(config, b) ==> a == b
    ensures ConfigField(config, "owner").Some? && !ConfigField(config, "owner").value.JStr? ==> !IsSuperAdmin(config, a)
  {
  }

  /**
   * `safeApiCall(fn)`: `attempt(i)` is the outcome of the `i`-th call of `fn` (`None` when it
   * throws). The first success is returned; after two failures the wrapper gives up.
   */
  method SafeApiCall<R>(attempt: nat -> Option<R>) returns (result: Option<R>, calls: nat)
    ensures 1 <= calls <= 2
    ensures forall j :: 0 <= j < calls - 1 ==> attempt(j).None?
    ensures result == attempt(calls - 1)
    ensures result.None? ==> calls == 2
    ensures result.None? <==> attempt(0).None? && attempt(1).None?
  {
    var retries := 2;
    calls := 0;
    while retries != 0
      invariant 0 <= retries <= 2 && calls == 2 - retries
      invariant forall j :: 0 <= j < calls ==> attempt(j).None?
    {
      retries := retries - 1;
      calls := calls + 1;
      var r := attempt(calls - 1);
      if r.Some? {
        return r, calls;
      }
    }
    return None, calls;
  }
}
