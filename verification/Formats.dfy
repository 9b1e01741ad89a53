/** What a format of libs/printk.c means: which text each conversion stands for, whatever comes before and after it. */
module Formats {
  import opened Printk

  // ---------------------------------------------------------------- conversions

  /** What may stand between the percent sign and the conversion: nothing, or a zero and one more character. */
  predicate IsModifier(mod: string) {
    mod == "" || (|mod| == 2 && mod[0] == '0' && mod[1] != '\0')
  }

  /** The width is that character, if it is a digit. */
  function WidthOf(mod: string): nat
    requires IsModifier(mod)
  {
    if mod != "" && '0' <= mod[1] <= '9' then mod[1] as int - '0' as int else 0
  }

  lemma ConversionAfter(mod: string, ch: char, rest: string)
    requires IsModifier(mod) && ch != '\0' && (mod == "" ==> ch != '0')
    ensures Parse(mod + [ch] + rest) == Conversion(ch, WidthOf(mod), rest)
  {
    var after := mod + [ch] + rest;
    if mod == "" {
      assert after[1..] == rest;
    } else {
      assert after[1..][0] == mod[1] && after[2..][0] == ch && after[3..] == rest;
    }
  }

  lemma FormatConverts(mod: string, ch: char, rest: string, args: seq<Arg>)
    requires IsModifier(mod) && ch != '\0' && (mod == "" ==> ch != '0')
    ensures Format("%" + mod + [ch] + rest, args) ==
      Convert(ch, WidthOf(mod), args).0 + Format(rest, Convert(ch, WidthOf(mod), args).1)
  {
    hide Convert, Format, Parse;
    var fmt := "%" + mod + [ch] + rest;
    assert fmt[1..] == mod + [ch] + rest;
    ConversionAfter(mod, ch, rest);
    FormatStep(fmt, args);
  }

  /** %d is the decimal numeral of the signed value, %u that of its bits read as an unsigned number, %x and %X the
      hexadecimal numerals of the latter in lower and upper case; what follows gets the arguments that are left. */
  lemma NumberIsPrinted(mod: string, ch: char, rest: string, v: Int32, args: seq<Arg>) returns (text: string)
    requires IsModifier(mod) && (ch == 'd' || ch == 'u' || ch == 'x' || ch == 'X')
    ensures Format("%" + mod + [ch] + rest, [Num(v)] + args) == text + Format(rest, args)
    ensures ch == 'd' ==> IsNumeral(text, v, 10, false, WidthOf(mod))
    ensures ch == 'u' ==> IsNumeral(text, v % 0x1_0000_0000, 10, false, WidthOf(mod))
    ensures ch == 'x' ==> IsNumeral(text, v % 0x1_0000_0000, 16, false, WidthOf(mod))
    ensures ch == 'X' ==> IsNumeral(text, v % 0x1_0000_0000, 16, true, WidthOf(mod))
  {
    hide Format, IsNumeral, Itoa;
    FormatConverts(mod, ch, rest, [Num(v)] + args);
    text := Convert(ch, WidthOf(mod), [Num(v)] + args).0;
    assert ([Num(v)] + args)[1..] == args;
    ItoaIsNumeral(v, if ch == 'd' || ch == 'u' then 10 else 16, ch == 'X', ch != 'd', WidthOf(mod));
  }

  /** %c is the character of the low byte. */
  lemma CharIsPrinted(mod: string, rest: string, v: Int32, args: seq<Arg>)
    requires IsModifier(mod)
    ensures Format("%" + mod + "c" + rest, [Num(v)] + args) == [(v % 256) as char] + Format(rest, args)
  {
    hide Format;
    FormatConverts(mod, 'c', rest, [Num(v)] + args);
    assert ([Num(v)] + args)[1..] == args;
  }

  /** %s is the string. */
  lemma StringIsPrinted(mod: string, rest: string, s: string, args: seq<Arg>)
    requires IsModifier(mod)
    ensures Format("%" + mod + "s" + rest, [Str(s)] + args) == s + Format(rest, args)
  {
    hide Format;
    FormatConverts(mod, 's', rest, [Str(s)] + args);
    assert ([Str(s)] + args)[1..] == args;
  }

  predicate IsConversion(ch: char) {
    ch in "duxXcs"
  }

  /** After a percent sign every other character, the percent sign among them, stands for itself and takes no
      argument. */
  lemma OtherIsPrinted(mod: string, ch: char, rest: string, args: seq<Arg>)
    requires IsModifier(mod) && !IsConversion(ch) && ch != '\0' && (mod == "" ==> ch != '0')
    ensures Format("%" + mod + [ch] + rest, args) == [ch] + Format(rest, args)
  {
    hide Format;
    FormatConverts(mod, ch, rest, args);
  }

  // ---------------------------------------------------------------- text and ends

  /** Ordinary text is copied. */
  lemma {:induction false} TextIsCopied(text: string, rest: string, args: seq<Arg>)
    requires forall k :: 0 <= k < |text| ==> text[k] != '%' && text[k] != '\0'
    ensures Format(text + rest, args) == text + Format(rest, args)
    decreases |text|
  {
    hide Format;
    if text == "" {
      assert "" + rest == rest && "" + Format(rest, args) == Format(rest, args);
    } else {
      FormatStep(text + rest, args);
      assert (text + rest)[1..] == text[1..] + rest;
      TextIsCopied(text[1..], rest, args);
      assert [text[0]] + (text[1..] + Format(rest, args)) == text + Format(rest, args);
    }
  }

  /** At its end a format stands for nothing, and so does a percent sign at the end, a zero, or a zero and one more
      character behind it or not; a null character ends it likewise. */
  lemma EndsPrintNothing(args: seq<Arg>, w: char, rest: string)
    ensures Format("", args) == "" && Format("\0" + rest, args) == ""
    ensures Format("%", args) == "" && Format("%\0" + rest, args) == ""
    ensures Format("%0", args) == "" && Format("%0\0" + rest, args) == ""
    ensures w != '\0' ==> Format("%0" + [w], args) == "" && Format("%0" + [w] + "\0" + rest, args) == ""
  {
    hide Format, Convert;
    FormatEnds("", args);
    FormatEnds("\0" + rest, args);
    StopsAt("", args);
    StopsAt("\0" + rest, args);
    StopsAt("0", args);
    assert ("0\0" + rest)[1..] == "\0" + rest;
    StopsAt("0\0" + rest, args);
    assert "%" == "%" + "" && "%0" == "%" + "0";
    assert "%\0" + rest == "%" + ("\0" + rest) && "%0\0" + rest == "%" + ("0\0" + rest);
    if w != '\0' {
      StopsAt("0" + [w], args);
      assert ("0" + [w] + "\0" + rest)[2..] == "\0" + rest;
      StopsAt("0" + [w] + "\0" + rest, args);
      assert "%0" + [w] == "%" + ("0" + [w]);
      assert "%0" + [w] + "\0" + rest == "%" + ("0" + [w] + "\0" + rest);
    }
  }

  lemma StopsAt(after: string, args: seq<Arg>)
    requires Parse(after) == End
    ensures Format("%" + after, args) == ""
  {
    hide Format, Convert;
    assert ("%" + after)[1..] == after;
    FormatStep("%" + after, args);
  }

  // ---------------------------------------------------------------- examples

  /** The digits, and their case. */
  lemma DigitIsPrinted(d: nat)
    requires d < 16
    ensures Format("%x", [Num(d)]) == ["0123456789abcdef"[d]]
    ensures Format("%X", [Num(d)]) == ["0123456789ABCDEF"[d]]
  {
    hide Format, IsNumeral, Denote;
    OneDigit("0123456789abcdef"[d], d, false);
    OneDigit("0123456789ABCDEF"[d], d, true);
    PrintsNumeral("", 'x', d, ["0123456789abcdef"[d]]);
    PrintsNumeral("", 'X', d, ["0123456789ABCDEF"[d]]);
    assert "%" + "" + "x" == "%x" && "%" + "" + "X" == "%X";
  }

  lemma OneDigit(c: char, d: nat, uppercase: bool)
    requires d < 16 && c == (if uppercase then "0123456789ABCDEF" else "0123456789abcdef")[d]
    ensures IsNumeral([c], d, 16, uppercase, 0)
  {
    assert Denote("", 16) == 0 && "" + [c] == [c];
    DenoteLast("", c, 16);
    hide Denote;
  }

  /** If `text` is the numeral that a conversion asks for, it is what is printed. */
  lemma PrintsNumeral(mod: string, ch: char, v: Int32, text: string)
    requires IsModifier(mod) && (ch == 'd' || ch == 'u' || ch == 'x' || ch == 'X')
    requires IsNumeral(text, if ch == 'd' then v else v % 0x1_0000_0000, if ch == 'd' || ch == 'u' then 10 else 16,
                       ch == 'X', WidthOf(mod))
    ensures Format("%" + mod + [ch], [Num(v)]) == text
  {
    hide Format, IsNumeral;
    var printed := NumberIsPrinted(mod, ch, "", v, []);
    NumeralIsUnique(text, printed, if ch == 'd' then v else v % 0x1_0000_0000,
                    if ch == 'd' || ch == 'u' then 10 else 16, ch == 'X', WidthOf(mod));
    FormatEnds("", []);
    assert "%" + mod + [ch] + "" == "%" + mod + [ch] && [Num(v)] + [] == [Num(v)] && text + "" == text;
  }

  /** The same value in both bases. */
  lemma BasesDiffer()
    ensures Format("%d", [Num(255)]) == "255" && Format("%x", [Num(255)]) == "ff"
  {
    hide Format;
    assert Denote("2", 10) == 2;
    DenoteLast("2", '5', 10);
    DenoteLast("25", '5', 10);
    assert "2" + "5" == "25" && "25" + "5" == "255";
    PrintsNumeral("", 'd', 255, "255");
    assert Denote("f", 16) == 15;
    DenoteLast("f", 'f', 16);
    assert "f" + "f" == "ff";
    PrintsNumeral("", 'x', 255, "ff");
    assert "%" + "" + "d" == "%d" && "%" + "" + "x" == "%x";
  }

  /** A negative number of width five, its sign not counted. */
  lemma SignAddsToWidth()
    ensures Format("%05d", [Num(-42)]) == "-00042"
  {
    hide Format;
    assert Denote("4", 10) == 4;
    DenoteLast("4", '2', 10);
    ZerosDenote("000", "42", 10);
    assert "4" + "2" == "42" && "000" + "42" == "00042" && "-00042"[1..] == "00042";
    PrintsNumeral("05", 'd', -42, "-00042");
    assert "%" + "05" + "d" == "%05d";
  }
}
