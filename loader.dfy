/**
 The line rule of the program loader: each line's text before its first `#`
 is stripped of surrounding whitespace; an empty result is skipped, and
 anything else is read as a base-2 number and stored at the next address.

 Only strings of `0`/`1` digits count as numbers here.
 */
module Loader {
  import opened Opcodes
  import opened Semantics

  /** The characters below 128 that Python's `str.strip()` removes. */
  predicate IsSpace(c: char)
  {
    c == ' ' || c == '\t' || c == '\n' || c == '\r' ||
    c == '\U{0B}' || c == '\U{0C}' || ('\U{1C}' <= c <= '\U{1F}')
  }

  predicate IsBit(c: char)
  {
    c == '0' || c == '1'
  }

  predicate IsBinary(s: string)
  {
    forall i :: 0 <= i < |s| ==> IsBit(s[i])
  }

  /** `line.split('#')[0]`: the text before the first `#`, or all of it. */
  function BeforeHash(line: string): (r: string)
    ensures r <= line && '#' !in r
    ensures |r| < |line| ==> line[|r|] == '#'
  {
    if line == [] || line[0] == '#' then []
    else [line[0]] + BeforeHash(line[1..])
  }

  /** `str.strip()`: leading and trailing whitespace removed. */
  function Strip(s: string): (r: string)
    ensures r == [] || (!IsSpace(r[0]) && !IsSpace(r[|r| - 1]))
    ensures r == [] <==> forall i :: 0 <= i < |s| ==> IsSpace(s[i])
  {
    if s == [] then []
    else if IsSpace(s[0]) then Strip(s[1..])
    else if IsSpace(s[|s| - 1]) then Strip(s[..|s| - 1])
    else s
  }

  function Pow2(n: nat): (p: nat)
    ensures p >= 1
  {
    if n == 0 then 1 else 2 * Pow2(n - 1)
  }

  /** The value of a string of binary digits, most significant first. */
  function Bits(s: string): (v: nat)
    requires IsBinary(s)
    ensures v < Pow2(|s|)
  {
    if s == [] then 0
    else 2 * Bits(s[..|s| - 1]) + (if s[|s| - 1] == '1' then 1 else 0)
  }

  /** `width` binary digits of `v`, most significant first. */
  function ToBits(v: nat, width: nat): (s: string)
    ensures |s| == width && IsBinary(s)
  {
    if width == 0 then [] else ToBits(v / 2, width - 1) + [if v % 2 == 1 then '1' else '0']
  }

  lemma {:induction false} BitsToBits(v: nat, width: nat)
    requires v < Pow2(width)
    ensures Bits(ToBits(v, width)) == v
  {
    if width > 0 {
      var s := ToBits(v, width);
      BitsToBits(v / 2, width - 1);
      assert s[..|s| - 1] == ToBits(v / 2, width - 1);
    }
  }

  /** Place value: a leading digit counts 2^(number of digits after it). */
  lemma {:induction false} BitsPrepend(c: char, s: string)
    requires IsBit(c) && IsBinary(s)
    ensures Bits([c] + s) == (if c == '1' then Pow2(|s|) else 0) + Bits(s)
    decreases |s|
  {
    var t := [c] + s;
    if s == [] {
      assert t[..|t| - 1] == [];
    } else {
      assert t[..|t| - 1] == [c] + s[..|s| - 1];
      assert t[|t| - 1] == s[|s| - 1];
      BitsPrepend(c, s[..|s| - 1]);
    }
  }

  /** What one program line contributes. */
  datatype LineParse = Blank | Byte(value: nat) | Bad(token: string)

  /**
   A line is blank exactly when its text before `#` is all whitespace; a
   token that is not a string of binary digits is reported as bad.
   */
  function ParseLine(line: string): (p: LineParse)
    ensures p.Blank? <==> forall i :: 0 <= i < |BeforeHash(line)| ==> IsSpace(BeforeHash(line)[i])
    ensures p.Bad? ==> p.token != [] && !IsBinary(p.token)
  {
    var token := Strip(BeforeHash(line));
    if token == [] then Blank
    else if IsBinary(token) then Byte(Bits(token))
    else Bad(token)
  }

  /**
   The numbers of a program text in order, up to the first line that is not
   a number, and that line's token if there is one.
   */
  datatype Image = Image(values: seq<nat>, bad: Option<string>)

  /** The parse of every line of a program text. */
  function ParseAll(lines: seq<string>): (ps: seq<LineParse>)
    ensures |ps| == |lines|
    ensures forall k :: 0 <= k < |lines| ==> ps[k] == ParseLine(lines[k])
  {
    seq(|lines|, k requires 0 <= k < |lines| => ParseLine(lines[k]))
  }

  /** The numbers up to the first bad line, and that line's token. */
  function Collect(ps: seq<LineParse>): (r: Image)
    ensures |r.values| <= |ps|
  {
    if ps == [] then Image([], None)
    else
      var rest := Collect(ps[1..]);
      match ps[0]
      case Blank => rest
      case Byte(v) => Image([v] + rest.values, rest.bad)
      case Bad(t) => Image([], Some(t))
  }

  function ImageOf(lines: seq<string>): Image
  {
    Collect(ParseAll(lines))
  }

  /** A comment after `#` never changes what a line means. */
  lemma CommentIgnored(code: string, comment: string)
    requires '#' !in code
    ensures ParseLine(code + "#" + comment) == ParseLine(code)
  {
    var line := code + "#" + comment;
    var r := BeforeHash(line);
    assert line[|code|] == '#';
    assert r == code;
    assert BeforeHash(code) == code;
  }

  /** A program image written one 8-digit binary literal per line. */
  function Render(values: seq<nat>): (lines: seq<string>)
    requires forall i :: 0 <= i < |values| ==> values[i] < 256
    ensures |lines| == |values|
  {
    seq(|values|, i requires 0 <= i < |values| => ToBits(values[i], 8) + "\n")
  }

  lemma BeforeHashWithoutHash(s: string)
    requires '#' !in s
    ensures BeforeHash(s) == s
  {
  }

  /** Whitespace after a token that neither starts nor ends with whitespace is stripped off. */
  lemma {:induction false} StripTrailing(token: string, tail: string)
    requires token != [] && !IsSpace(token[0]) && !IsSpace(token[|token| - 1])
    requires forall i :: 0 <= i < |tail| ==> IsSpace(tail[i])
    ensures Strip(token + tail) == token
  {
    var s := token + tail;
    assert s[0] == token[0];
    if tail == [] {
      assert s == token;
    } else {
      assert s[|s| - 1] == tail[|tail| - 1];
      assert s[..|s| - 1] == token + tail[..|tail| - 1];
      StripTrailing(token, tail[..|tail| - 1]);
    }
  }

  /** Whitespace on both sides of a token is stripped off, and the token is kept whole. */
  lemma {:induction false} StripSurrounding(lead: string, token: string, tail: string)
    requires forall i :: 0 <= i < |lead| ==> IsSpace(lead[i])
    requires token != [] && !IsSpace(token[0]) && !IsSpace(token[|token| - 1])
    requires forall i :: 0 <= i < |tail| ==> IsSpace(tail[i])
    ensures Strip(lead + token + tail) == token
    decreases |lead|
  {
    if lead == [] {
      assert lead + token + tail == token + tail;
      StripTrailing(token, tail);
    } else {
      var s := lead + token + tail;
      assert s[0] == lead[0];
      assert s[1..] == lead[1..] + token + tail;
      StripSurrounding(lead[1..], token, tail);
    }
  }

  /** An indented binary literal with trailing whitespace and a comment parses to its value. */
  lemma ParseIndented(lead: string, digits: string, tail: string, comment: string)
    requires forall i :: 0 <= i < |lead| ==> IsSpace(lead[i])
    requires digits != [] && IsBinary(digits)
    requires forall i :: 0 <= i < |tail| ==> IsSpace(tail[i])
    ensures ParseLine(lead + digits + tail + "#" + comment) == Byte(Bits(digits))
  {
    var code := lead + digits + tail;
    assert forall i :: 0 <= i < |code| ==> code[i] != '#' by {
      forall i | 0 <= i < |code| ensures code[i] != '#' {
        if i < |lead| {
          assert code[i] == lead[i];
        } else if i < |lead| + |digits| {
          assert code[i] == digits[i - |lead|];
        } else {
          assert code[i] == tail[i - |lead| - |digits|];
        }
      }
    }
    CommentIgnored(code, comment);
    BeforeHashWithoutHash(code);
    assert IsBit(digits[0]) && IsBit(digits[|digits| - 1]);
    StripSurrounding(lead, digits, tail);
  }

  /**
   A token that is not a string of binary digits, with whitespace around it
   and a comment after it, is reported as bad with exactly its stripped text.
   */
  lemma ParseBad(lead: string, token: string, tail: string, comment: string)
    requires forall i :: 0 <= i < |lead| ==> IsSpace(lead[i])
    requires token != [] && !IsSpace(token[0]) && !IsSpace(token[|token| - 1])
    requires '#' !in token && !IsBinary(token)
    requires forall i :: 0 <= i < |tail| ==> IsSpace(tail[i])
    ensures ParseLine(lead + token + tail + "#" + comment) == Bad(token)
  {
    var code := lead + token + tail;
    assert forall i :: 0 <= i < |code| ==> code[i] != '#' by {
      forall i | 0 <= i < |code| ensures code[i] != '#' {
        if i < |lead| {
          assert code[i] == lead[i];
        } else if i < |lead| + |token| {
          assert code[i] == token[i - |lead|];
        } else {
          assert code[i] == tail[i - |lead| - |token|];
        }
      }
    }
    CommentIgnored(code, comment);
    BeforeHashWithoutHash(code);
    StripSurrounding(lead, token, tail);
  }

  /** A line holding only whitespace and a comment is blank. */
  lemma CommentLineBlank(lead: string, comment: string)
    requires forall i :: 0 <= i < |lead| ==> IsSpace(lead[i])
    ensures ParseLine(lead + "#" + comment) == Blank
  {
    assert '#' !in lead;
    CommentIgnored(lead, comment);
    BeforeHashWithoutHash(lead);
  }

  /** A blank line is skipped: removing it changes neither the numbers nor the bad token. */
  lemma {:induction false} CollectSkipsBlank(ps: seq<LineParse>, i: nat)
    requires i < |ps| && ps[i] == Blank
    ensures Collect(ps[..i] + ps[i + 1..]) == Collect(ps)
    decreases i
  {
    var q := ps[..i] + ps[i + 1..];
    if i == 0 {
      assert q == ps[1..];
    } else {
      CollectSkipsBlank(ps[1..], i - 1);
      assert q[0] == ps[0];
      assert q[1..] == ps[1..][..i - 1] + ps[1..][i..];
    }
  }

  /** Removing a blank or comment-only line from a program text does not change what it loads. */
  lemma BlankLineSkipped(lines: seq<string>, i: nat)
    requires i < |lines| && ParseLine(lines[i]) == Blank
    ensures ImageOf(lines[..i] + lines[i + 1..]) == ImageOf(lines)
  {
    var ps := ParseAll(lines);
    CollectSkipsBlank(ps, i);
    assert ParseAll(lines[..i] + lines[i + 1..]) == ps[..i] + ps[i + 1..];
  }

  /** The literal of the LDI opcode reads, most significant digit first, as 0x82. */
  lemma LdiLiteral()
    ensures Bits("10000010") == LDI
  {
    assert Bits("10") == 2 by {
      BitsPrepend('1', "0");
      assert "10" == ['1'] + "0";
    }
    assert Bits("0000010") == 2 by {
      ZerosPrepended("00000", "10");
      assert "0000010" == "00000" + "10";
    }
    assert Bits("10000010") == 128 + 2 by {
      BitsPrepend('1', "0000010");
      assert "10000010" == ['1'] + "0000010";
      assert Pow2(7) == 128;
    }
  }

  /** Leading zeros do not change a binary number. */
  lemma {:induction false} ZerosPrepended(zeros: string, s: string)
    requires (forall i :: 0 <= i < |zeros| ==> zeros[i] == '0') && IsBinary(s)
    ensures IsBinary(zeros + s) && Bits(zeros + s) == Bits(s)
    decreases |zeros|
  {
    if zeros == [] {
      assert zeros + s == s;
    } else {
      ZerosPrepended(zeros[1..], s);
      assert zeros[0] == '0' && zeros + s == [zeros[0]] + (zeros[1..] + s);
      BitsPrepend('0', zeros[1..] + s);
    }
  }

  /** The first line of the print8 program loads the LDI opcode. */
  lemma LdiLine()
    ensures ParseLine("10000010 # LDI R0,8\n") == Byte(LDI)
  {
    var digits, comment := "10000010", " LDI R0,8\n";
    assert "10000010 # LDI R0,8\n" == [] + digits + " " + "#" + comment;
    assert IsBinary(digits);
    ParseIndented([], digits, " ", comment);
    LdiLiteral();
  }

  /** A line holding the 8 binary digits of a byte, then a newline, parses back to that byte. */
  lemma ParseRendered(v: nat)
    requires v < 256
    ensures ParseLine(ToBits(v, 8) + "\n") == Byte(v)
  {
    var digits := ToBits(v, 8);
    var line := digits + "\n";
    assert '#' !in line;
    BeforeHashWithoutHash(line);
    assert IsBit(digits[0]) && IsBit(digits[7]);
    StripTrailing(digits, "\n");
    assert Pow2(8) == 256 by {
      assert Pow2(4) == 16;
    }
    BitsToBits(v, 8);
  }

  /** Lines that all parse as numbers contribute exactly those numbers, in order. */
  lemma {:induction false} CollectNumbers(ps: seq<LineParse>, values: seq<nat>)
    requires |ps| == |values|
    requires forall i :: 0 <= i < |ps| ==> ps[i] == Byte(values[i])
    ensures Collect(ps) == Image(values, None)
  {
    if ps != [] {
      CollectNumbers(ps[1..], values[1..]);
      assert values == [values[0]] + values[1..];
    }
  }

  /** Loading a rendered image gives back exactly its bytes. */
  lemma ImageOfRender(values: seq<nat>)
    requires forall i :: 0 <= i < |values| ==> values[i] < 256
    ensures ImageOf(Render(values)) == Image(values, None)
  {
    var ps := ParseAll(Render(values));
    forall i | 0 <= i < |ps| ensures ps[i] == Byte(values[i]) {
      ParseRendered(values[i]);
    }
    CollectNumbers(ps, values);
  }

  /** What loading leaves behind: memory, output, and how loading ended. */
  datatype LoadResult = LoadResult(ram: seq<int>, output: seq<OutLine>, status: Status)

  /**
   The loader's loop over parsed lines, with the next free address: numbers
   are stored in order, a bad token prints a message and exits with status 1,
   and a number with no address left faults.
   */
  function LoadLines(ps: seq<LineParse>, ram: seq<int>, address: nat, output: seq<OutLine>): (r: LoadResult)
    requires |ram| == RAM_SIZE
    ensures |r.ram| == RAM_SIZE
    decreases |ps|
  {
    if ps == [] then LoadResult(ram, output, Normal)
    else
      match ps[0]
      case Blank => LoadLines(ps[1..], ram, address, output)
      case Bad(t) => LoadResult(ram, output + [InvalidNumberMessage(t)], Exited(1))
      case Byte(v) =>
        if address >= RAM_SIZE then LoadResult(ram, output, Faulted(RamIndex(address)))
        else LoadLines(ps[1..], ram[address := v], address + 1, output)
  }

  /** How loading from `address` on ends, in terms of the numbers the lines hold. */
  lemma {:induction false} LoadLinesStatus(ps: seq<LineParse>, ram: seq<int>, address: nat, output: seq<OutLine>)
    requires |ram| == RAM_SIZE && address <= RAM_SIZE
    ensures var r, img := LoadLines(ps, ram, address, output), Collect(ps);
      if address + |img.values| > RAM_SIZE then
        r.status == Faulted(RamIndex(RAM_SIZE)) && r.output == output
      else if img.bad == None then
        r.status == Normal && r.output == output
      else
        r.status == Exited(1) && r.output == output + [InvalidNumberMessage(img.bad.value)]
    decreases |ps|
  {
    if ps != [] {
      match ps[0]
      case Blank => LoadLinesStatus(ps[1..], ram, address, output);
      case Bad(_) =>
      case Byte(v) =>
        if address < RAM_SIZE {
          LoadLinesStatus(ps[1..], ram[address := v], address + 1, output);
        }
    }
  }

  /** Loading from `address` on stores the numbers from there and leaves every other cell alone. */
  lemma {:induction false} LoadLinesMemory(ps: seq<LineParse>, ram: seq<int>, address: nat, output: seq<OutLine>)
    requires |ram| == RAM_SIZE && address <= RAM_SIZE
    ensures var r, img := LoadLines(ps, ram, address, output), Collect(ps);
      forall a :: 0 <= a < RAM_SIZE ==>
        r.ram[a] == if address <= a < address + |img.values| then img.values[a - address] else ram[a]
    decreases |ps|
  {
    if ps != [] {
      match ps[0]
      case Blank =>
        LoadLinesMemory(ps[1..], ram, address, output);
        assert Collect(ps) == Collect(ps[1..]);
        assert LoadLines(ps, ram, address, output) == LoadLines(ps[1..], ram, address, output);
      case Bad(_) =>
      case Byte(v) =>
        if address < RAM_SIZE {
          var rest := Collect(ps[1..]);
          LoadLinesMemory(ps[1..], ram[address := v], address + 1, output);
          assert Collect(ps).values == [v] + rest.values;
          var r, img := LoadLines(ps, ram, address, output), Collect(ps);
          assert r == LoadLines(ps[1..], ram[address := v], address + 1, output);
          forall a | 0 <= a < RAM_SIZE
            ensures r.ram[a] == if address <= a < address + |img.values| then img.values[a - address] else ram[a]
          {
            if address < a < address + |img.values| {
              assert img.values[a - address] == rest.values[a - (address + 1)];
            }
          }
        }
    }
  }

  /**
   Loading a whole program text: its numbers fill memory from address 0 (or
   overflow it), and the text's first bad token, if any, decides the exit.
   */
  lemma LoadImage(lines: seq<string>, ram: seq<int>, output: seq<OutLine>)
    requires |ram| == RAM_SIZE
    ensures var r, img := LoadLines(ParseAll(lines), ram, 0, output), ImageOf(lines);
      (|img.values| > RAM_SIZE ==>
        r.status == Faulted(RamIndex(RAM_SIZE)) && r.output == output &&
        forall a :: 0 <= a < RAM_SIZE ==> r.ram[a] == img.values[a]) &&
      (|img.values| <= RAM_SIZE ==>
        (forall a :: 0 <= a < |img.values| ==> r.ram[a] == img.values[a]) &&
        (forall a :: |img.values| <= a < RAM_SIZE ==> r.ram[a] == ram[a])) &&
      (|img.values| <= RAM_SIZE && img.bad == None ==> r.status == Normal && r.output == output) &&
      (|img.values| <= RAM_SIZE && img.bad != None ==>
        r.status == Exited(1) && r.output == output + [InvalidNumberMessage(img.bad.value)])
  {
    LoadLinesStatus(ParseAll(lines), ram, 0, output);
    LoadLinesMemory(ParseAll(lines), ram, 0, output);
  }
}
