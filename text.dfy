/** The pieces of Rust's standard library the engine relies on for text:
    splitting source text into lines (`str::lines`), the byte length of a
    line (`str::len`, UTF-8) and the decimal rendering of an integer (`{}`). */
module Text {

  /** The number of bytes UTF-8 spends on one character. */
  function Utf8Width(c: char): (n: nat)
    ensures 1 <= n <= 4
    ensures n == 1 <==> (c as int) < 0x80
  {
    if (c as int) < 0x80 then 1
    else if (c as int) < 0x800 then 2
    else if (c as int) < 0x10000 then 3
    else 4
  }

  /** `str::len`: the UTF-8 length, never less than the number of characters. */
  function ByteLen(s: string): (n: nat)
    ensures |s| <= n <= 4 * |s|
  {
    if s == [] then 0 else Utf8Width(s[0]) + ByteLen(s[1..])
  }

  lemma {:induction false} ByteLenAppend(a: string, b: string)
    ensures ByteLen(a + b) == ByteLen(a) + ByteLen(b)
  {
    if a == [] {
      assert a + b == b;
    } else {
      assert (a + b)[0] == a[0] && (a + b)[1..] == a[1..] + b;
      ByteLenAppend(a[1..], b);
    }
  }

  /** The index of the first newline, or the length when there is none. */
  function FindNewline(s: string): (i: nat)
    ensures i <= |s|
    ensures i < |s| ==> s[i] == '\n'
    ensures forall j :: 0 <= j < i ==> s[j] != '\n'
  {
    if s == [] || s[0] == '\n' then 0 else 1 + FindNewline(s[1..])
  }

  /** A line ended by "\r\n" loses its carriage return. */
  function StripCr(line: string): (r: string)
    ensures r == line || r + ['\r'] == line
    ensures line != [] && line[|line| - 1] == '\r' ==> r + ['\r'] == line
  {
    if line != [] && line[|line| - 1] == '\r' then line[..|line| - 1] else line
  }

  /** `str::lines`: split at each '\n', drop a '\r' just before it, and yield
      no empty line after a final newline. */
  function Lines(s: string): (ls: seq<string>)
    ensures |ls| <= |s|
    ensures forall k :: 0 <= k < |ls| ==> '\n' !in ls[k]
    ensures forall k :: 0 <= k < |ls| ==> ByteLen(ls[k]) <= ByteLen(s)
    decreases |s|
  {
    if s == [] then []
    else
      var i := FindNewline(s);
      if i == |s| then [s]
      else
        LineBytes(s, i);
        [StripCr(s[..i])] + Lines(s[i + 1..])
  }

  /** The bytes of the part before a newline and of the part after it fit in the whole. */
  lemma LineBytes(s: string, i: nat)
    requires i < |s|
    ensures ByteLen(StripCr(s[..i])) <= ByteLen(s)
    ensures ByteLen(s[i + 1..]) <= ByteLen(s)
  {
    SplitBytes(s, i);
    StripCrBytes(s[..i]);
  }

  /** Cutting s around position i splits its bytes. */
  lemma SplitBytes(s: string, i: nat)
    requires i < |s|
    ensures ByteLen(s) == ByteLen(s[..i]) + Utf8Width(s[i]) + ByteLen(s[i + 1..])
  {
    assert s == s[..i] + s[i..];
    ByteLenAppend(s[..i], s[i..]);
    assert s[i..][1..] == s[i + 1..];
  }

  /** Dropping a carriage return does not add bytes. */
  lemma StripCrBytes(line: string)
    ensures ByteLen(StripCr(line)) <= ByteLen(line)
  {
    if StripCr(line) != line {
      ByteLenAppend(StripCr(line), ['\r']);
    }
  }

  /** The pieces between newlines, carriage returns kept, with no empty
      piece after a final newline. */
  function RawLines(s: string): (ls: seq<string>)
    ensures |ls| <= |s|
    decreases |s|
  {
    if s == [] then []
    else
      var i := FindNewline(s);
      if i == |s| then [s] else [s[..i]] + RawLines(s[i + 1..])
  }

  /** The lines put back together, a newline between each two. */
  function Join(ls: seq<string>): string
  {
    if ls == [] then []
    else if |ls| == 1 then ls[0]
    else ls[0] + ['\n'] + Join(ls[1..])
  }

  /** `str::lines` yields the pieces between newlines: a piece a newline
      follows loses the carriage return that ends it, and a last piece with
      no newline after it is kept whole. */
  lemma {:induction false} LinesStrip(s: string)
    ensures |Lines(s)| == |RawLines(s)|
    ensures forall k :: 0 <= k < |Lines(s)| ==>
      Lines(s)[k] == if k + 1 < |Lines(s)| || s[|s| - 1] == '\n' then StripCr(RawLines(s)[k]) else RawLines(s)[k]
    decreases |s|
  {
    if s != [] {
      var i := FindNewline(s);
      if i == |s| {
        assert Lines(s) == [s] && RawLines(s) == [s];
      } else {
        var rest := s[i + 1..];
        LinesCut(s, i);
        NewlineCut(s, i);
        LinesStrip(rest);
        forall k | 0 <= k < |Lines(s)|
          ensures Lines(s)[k] ==
            if k + 1 < |Lines(s)| || s[|s| - 1] == '\n' then StripCr(RawLines(s)[k]) else RawLines(s)[k]
        {
          NoLines(rest);
          if k == 0 {
            if rest == [] {
              assert s[|s| - 1] == s[i];
            }
          } else {
            assert Lines(s)[k] == Lines(rest)[k - 1] && RawLines(s)[k] == RawLines(rest)[k - 1];
            EndingCut(s, i);
          }
        }
      }
    }
  }

  /** Only the empty text has no lines. */
  lemma NoLines(s: string)
    ensures Lines(s) == [] <==> s == []
    ensures RawLines(s) == [] <==> s == []
  {
  }

  /** Cutting a text at its first newline gives the first line, its carriage
      return dropped, and the lines of the rest. */
  lemma LinesCut(s: string, i: nat)
    requires i == FindNewline(s) < |s|
    ensures Lines(s) == [StripCr(s[..i])] + Lines(s[i + 1..])
  {
  }

  /** Joining one more line in front puts a newline after it. */
  lemma JoinCons(line: string, ls: seq<string>)
    requires ls != []
    ensures Join([line] + ls) == line + ['\n'] + Join(ls)
  {
    assert ([line] + ls)[1..] == ls;
  }

  /** The final newline of a text, if it ends with one. */
  function Ending(s: string): (e: string)
    ensures e == [] || e == ['\n']
    ensures e != [] <==> s != [] && s[|s| - 1] == '\n'
  {
    if s != [] && s[|s| - 1] == '\n' then ['\n'] else []
  }

  /** Joining the pieces with newlines, plus the final newline if there was
      one, gives back the text. */
  lemma {:induction false} RawLinesJoin(s: string)
    ensures Join(RawLines(s)) + Ending(s) == s
    decreases |s|
  {
    if s != [] {
      var i := FindNewline(s);
      if i == |s| {
        assert RawLines(s) == [s] && Join([s]) == s;
        assert s[|s| - 1] != '\n';
      } else {
        var rest := s[i + 1..];
        RawLinesJoin(rest);
        if rest == [] {
          LastNewline(s, i);
        } else {
          NewlineCut(s, i);
          EndingCut(s, i);
          Cut(s, i);
          JoinCons(s[..i], RawLines(rest));
          calc {
            Join(RawLines(s)) + Ending(s);
            s[..i] + ['\n'] + Join(RawLines(rest)) + Ending(rest);
            s[..i] + ['\n'] + (Join(RawLines(rest)) + Ending(rest));
            s[..i] + [s[i]] + rest;
          }
        }
      }
    }
  }

  /** A text is what comes before position i, the character at i, and what
      comes after it. */
  lemma Cut(s: string, i: nat)
    requires i < |s|
    ensures s == s[..i] + [s[i]] + s[i + 1..]
  {
  }

  /** Cutting a text at its first newline gives the first piece and the
      pieces of the rest. */
  lemma NewlineCut(s: string, i: nat)
    requires i == FindNewline(s) < |s|
    ensures RawLines(s) == [s[..i]] + RawLines(s[i + 1..])
  {
  }

  /** A text whose only newline is its last character is one piece. */
  lemma LastNewline(s: string, i: nat)
    requires i == FindNewline(s) == |s| - 1
    ensures Join(RawLines(s)) + Ending(s) == s
  {
    NewlineCut(s, i);
    assert RawLines(s) == [s[..i]];
    Cut(s, i);
  }

  /** Past the first newline, the rest of a text ends as the text does. */
  lemma EndingCut(s: string, i: nat)
    requires i + 1 < |s|
    ensures Ending(s) == Ending(s[i + 1..])
  {
    assert s[|s| - 1] == s[i + 1..][|s| - i - 2];
  }

  /** Text without carriage returns: its lines joined with newlines, plus the
      final newline if there was one, give back the text. */
  lemma LinesJoin(s: string)
    requires '\r' !in s
    ensures Join(Lines(s)) + Ending(s) == s
  {
    LinesStrip(s);
    RawLinesPieces(s);
    forall k | 0 <= k < |Lines(s)| ensures Lines(s)[k] == RawLines(s)[k] {
      var p := RawLines(s)[k];
      if p != [] {
        assert p[|p| - 1] in p;
      }
    }
    assert Lines(s) == RawLines(s);
    RawLinesJoin(s);
  }

  /** Every piece is a part of the text, so it holds no character the text lacks. */
  lemma {:induction false} RawLinesPieces(s: string)
    ensures forall k, c :: 0 <= k < |RawLines(s)| && c in RawLines(s)[k] ==> c in s
    decreases |s|
  {
    if s != [] {
      var i := FindNewline(s);
      if i < |s| {
        RawLinesPieces(s[i + 1..]);
        forall k, c | 0 <= k < |RawLines(s)| && c in RawLines(s)[k] ensures c in s {
          if k > 0 {
            assert RawLines(s)[k] == RawLines(s[i + 1..])[k - 1];
            assert c in s[i + 1..];
          }
        }
      }
    }
  }

  /** The number of occurrences of c in s. */
  function Count(c: char, s: string): (n: nat)
    ensures n <= |s|
  {
    if s == [] then 0 else (if s[0] == c then 1 else 0) + Count(c, s[1..])
  }

  lemma {:induction false} CountAppend(c: char, a: string, b: string)
    ensures Count(c, a + b) == Count(c, a) + Count(c, b)
  {
    if a == [] {
      assert a + b == b;
    } else {
      assert (a + b)[0] == a[0] && (a + b)[1..] == a[1..] + b;
      CountAppend(c, a[1..], b);
    }
  }

  lemma {:induction false} CountAbsent(c: char, s: string)
    requires forall j :: 0 <= j < |s| ==> s[j] != c
    ensures Count(c, s) == 0
  {
    if s != [] {
      CountAbsent(c, s[1..]);
    }
  }

  /** The number of lines is the number of newlines, plus one for a last line
      that has no newline after it. */
  lemma {:induction false} LineCount(s: string)
    ensures |Lines(s)| == Count('\n', s) + (if s != [] && s[|s| - 1] != '\n' then 1 else 0)
    decreases |s|
  {
    if s != [] {
      var i := FindNewline(s);
      CountAbsent('\n', s[..i]);
      if i == |s| {
        assert s[..i] == s;
      } else {
        var rest := s[i + 1..];
        LineCount(rest);
        NewlineSplit(s, i);
        assert |Lines(s)| == 1 + |Lines(rest)|;
        if rest != [] {
          assert s[|s| - 1] == rest[|rest| - 1];
        }
      }
    }
  }

  /** A newline at i contributes one to the count of the whole. */
  lemma NewlineSplit(s: string, i: nat)
    requires i < |s| && s[i] == '\n' && Count('\n', s[..i]) == 0
    ensures Count('\n', s) == 1 + Count('\n', s[i + 1..])
  {
    var rest := s[i + 1..];
    assert s == s[..i] + ([s[i]] + rest);
    CountAppend('\n', s[..i], [s[i]] + rest);
    assert ([s[i]] + rest)[1..] == rest;
  }

  /** The character of one decimal digit. */
  function DigitChar(d: nat): (c: char)
    requires d < 10
    ensures '0' <= c <= '9' && c as nat - '0' as nat == d
  {
    (d + '0' as nat) as char
  }

  /** The value of a string of decimal digits. */
  function DecimalValue(s: string): nat
    requires forall j :: 0 <= j < |s| ==> '0' <= s[j] <= '9'
  {
    if s == [] then 0 else 10 * DecimalValue(s[..|s| - 1]) + (s[|s| - 1] as nat - '0' as nat)
  }

  /** `format!("{}", v)`: the decimal digits of v, most significant first,
      with no leading zero. */
  function Decimal(v: nat): (s: string)
    ensures s != []
    ensures forall j :: 0 <= j < |s| ==> '0' <= s[j] <= '9'
    ensures s[0] == '0' ==> v == 0
  {
    if v < 10 then [DigitChar(v)] else Decimal(v / 10) + [DigitChar(v % 10)]
  }

  /** Reading the decimal text back gives the value that was written. */
  lemma {:induction false} DecimalRoundTrip(v: nat)
    ensures DecimalValue(Decimal(v)) == v
  {
    if v >= 10 {
      var s := Decimal(v);
      assert s[..|s| - 1] == Decimal(v / 10);
      DecimalRoundTrip(v / 10);
    }
  }
}
