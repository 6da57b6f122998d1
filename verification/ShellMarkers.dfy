/**
 What shell hooks print and what shells read back: the escaped directory marker against the tracker, and
 the two ways of quoting against the word rules of sections 2.2.1 to 2.2.3 of the POSIX.1-2017 Shell
 Command Language.
 */
module ShellMarkers {
  import opened Common
  import opened DirectoryTracker

  // ----- the directory marker -----

  /** The escape of the bash and zsh hooks: first every backslash is doubled, then semicolons become \x3b. */
  function ReplaceAll(s: string, c: char, with: string): string {
    if s == "" then "" else (if s[0] == c then with else [s[0]]) + ReplaceAll(s[1..], c, with)
  }

  function Escape(value: string): string {
    ReplaceAll(ReplaceAll(value, '\\', "\\\\"), ';', "\\x3b")
  }

  function EscapedChar(c: char): string {
    if c == '\\' then "\\\\" else if c == ';' then "\\x3b" else [c]
  }

  lemma {:induction false} ReplaceConcat(left: string, right: string, c: char, with: string)
    ensures ReplaceAll(left + right, c, with) == ReplaceAll(left, c, with) + ReplaceAll(right, c, with)
  {
    if left == "" {
      assert left + right == right;
    } else {
      assert (left + right)[1..] == left[1..] + right;
      ReplaceConcat(left[1..], right, c, with);
    }
  }

  /** The two passes escape character by character. */
  lemma EscapeFirst(value: string)
    requires value != ""
    ensures Escape(value) == EscapedChar(value[0]) + Escape(value[1..])
  {
    var first := if value[0] == '\\' then "\\\\" else [value[0]];
    ReplaceConcat(first, ReplaceAll(value[1..], '\\', "\\\\"), ';', "\\x3b");
    assert first[1..] == (if value[0] == '\\' then "\\" else "");
    assert ReplaceAll("", ';', "\\x3b") == "" && "\\"[1..] == "";
    assert ReplaceAll(first, ';', "\\x3b") == EscapedChar(value[0]);
  }

  /** Decoding undoes the escape, for every value. */
  lemma {:induction false} EscapeRoundTrip(value: string)
    ensures Unescape(Escape(value)) == Some(value)
  {
    if value != "" {
      EscapeFirst(value);
      EscapeRoundTrip(value[1..]);
      var rest := Escape(value[1..]);
      var all := EscapedChar(value[0]) + rest;
      if value[0] == '\\' {
        assert FirstToken(all) == Some(Token('\\', 2)) && all[2..] == rest;
      } else if value[0] == ';' {
        assert all[2] == '3' && all[3] == 'b' && HexValue('3') * 16 + HexValue('b') == 0x3b;
        assert FirstToken(all) == Some(Token(';', 4)) && all[4..] == rest;
      } else {
        assert FirstToken(all) == Some(Token(value[0], 1)) && all[1..] == rest;
      }
      assert [value[0]] + value[1..] == value;
    }
  }

  lemma {:induction false} EscapeLength(value: string)
    ensures Length(Escape(value)) <= 4 * Length(value)
  {
    if value != "" {
      EscapeFirst(value);
      EscapeLength(value[1..]);
      LengthConcat(EscapedChar(value[0]), Escape(value[1..]));
      LengthConcat([value[0]], value[1..]);
      assert [value[0]] + value[1..] == value;
      CharLength(value[0]);
    }
  }

  lemma CharLength(c: char)
    ensures Length([c]) == Units(c) && Length(EscapedChar(c)) <= 4 * Units(c)
  {
    assert [c][..0] == "";
    assert "\\\\"[..1] == "\\" && "\\"[..0] == "";
    assert "\\x3b"[..3] == "\\x3" && "\\x3"[..2] == "\\x" && "\\x"[..1] == "\\";
  }

  lemma {:induction false} EscapePlain(value: string)
    requires !HasControl(value)
    ensures forall k :: 0 <= k < |Escape(value)| ==> Escape(value)[k] != ESC && Escape(value)[k] != BEL
  {
    if value != "" {
      EscapeFirst(value);
      assert !IsControl(value[0]);
      forall k | 0 <= k < |value[1..]| ensures !IsControl(value[1..][k]) {
        assert value[1..][k] == value[k + 1];
      }
      EscapePlain(value[1..]);
    }
  }

  /** The marker a hook prints for a directory. */
  function CwdMarker(directory: string): string {
    [ESC, ']'] + CWD + Escape(directory) + [BEL]
  }

  lemma {:induction false} ContentOfPlain(body: string)
    requires forall k :: 0 <= k < |body| ==> body[k] != ESC
    ensures Content(body) == body && WellFormed(body)
  {
    if body != "" {
      ContentOfPlain(body[..|body| - 1]);
      assert body == body[..|body| - 1] + [body[|body| - 1]];
    }
  }

  lemma {:induction false} BodyEndOfPlain(s: string, from: nat, at: nat)
    requires from <= at < |s| && s[|s| - 1] == BEL
    requires forall k :: from <= k < |s| - 1 ==> s[k] != ESC && s[k] != BEL
    ensures BodyEnd(s, from, at) == |s| - 1
    decreases |s| - at
  {
    if at < |s| - 1 {
      BodyEndOfPlain(s, from, at + 1);
    }
  }

  /**
   Fed with the marker a hook prints, the tracker takes over the directory exactly when the marker fits
   and the directory is not too long; otherwise it keeps the one it had.
   */
  lemma MarkerSetsDirectory(m: Machine, directory: string, url: string -> Option<string>)
    requires m.mode == Text && IsAbsolute(directory) && !HasControl(directory)
    ensures Run(m, CwdMarker(directory), url).mode == Text
    ensures Run(m, CwdMarker(directory), url).directory ==
            if Length(directory) <= DIRECTORY_LIMIT && Fits(CWD + Escape(directory)) then Some(directory)
            else m.directory
  {
    hide Accepted, Fits, Length, HasControl, IsAbsolute, Escape, Run, BodyEnd, Content, WellFormed;
    var s := CwdMarker(directory);
    var body := CWD + Escape(directory);
    EscapePlain(directory);
    assert s == [ESC, ']'] + body + [BEL];
    PlainPrefix();
    forall k | 2 <= k < |s| - 1 ensures s[k] != ESC && s[k] != BEL {
      assert s[k] == body[k - 2];
    }
    BodyEndOfPlain(s, 2, 2);
    assert s[2..|s| - 1] == body && s[..|s|] == s;
    forall k | 0 <= k < |body| ensures body[k] != ESC {
      assert body[k] == s[k + 2];
    }
    ContentOfPlain(body);
    MarkerRun(m, s, url);
    AcceptedDirectory(directory, m.directory, url);
  }

  /** A marker without escape characters inside sets whatever directory it names, if that is a proper one. */
  lemma PlainMarkerRun(m: Machine, body: string, url: string -> Option<string>)
    requires m.mode == Text && Fits(body) && forall k :: 0 <= k < |body| ==> body[k] != ESC && body[k] != BEL
    ensures Run(m, [ESC, ']'] + body + [BEL], url).directory == Accepted(body, m.directory, url)
  {
    hide Accepted, Fits, Run, BodyEnd, Content, WellFormed;
    var s := [ESC, ']'] + body + [BEL];
    forall k | 2 <= k < |s| - 1 ensures s[k] != ESC && s[k] != BEL {
      assert s[k] == body[k - 2];
    }
    BodyEndOfPlain(s, 2, 2);
    assert s[2..|s| - 1] == body && s[..|s|] == s;
    ContentOfPlain(body);
    MarkerRun(m, s, url);
  }

  /** A marker of the other kind sets exactly the directory that its URL names, if that is a proper one. */
  lemma UrlMarkerSetsDirectory(m: Machine, link: string, url: string -> Option<string>)
    requires m.mode == Text && Fits("7;" + link) && forall k :: 0 <= k < |link| ==> link[k] != ESC && link[k] != BEL
    ensures Run(m, [ESC, ']'] + ("7;" + link) + [BEL], url).directory ==
            if url(link).Some? && Proper(url(link).value) then url(link) else m.directory
  {
    hide Fits, Run, Length, IsAbsolute;
    var body := "7;" + link;
    forall k | 0 <= k < |body| ensures body[k] != ESC && body[k] != BEL {
      assert k >= 2 ==> body[k] == link[k - 2];
    }
    PlainMarkerRun(m, body, url);
    assert body[2..] == link && !(CWD <= body) by {
      assert body[0] == '7' && CWD[0] == '6';
    }
  }

  lemma PlainPrefix()
    ensures forall k :: 0 <= k < |CWD| ==> CWD[k] != ESC && CWD[k] != BEL
  {
  }

  lemma AcceptedDirectory(directory: string, before: Option<string>, url: string -> Option<string>)
    requires IsAbsolute(directory) && !HasControl(directory)
    ensures Accepted(CWD + Escape(directory), before, url) ==
            if Length(directory) <= DIRECTORY_LIMIT then Some(directory) else before
  {
    EscapeRoundTrip(directory);
    EscapeLength(directory);
    assert (CWD + Escape(directory))[|CWD|..] == Escape(directory);
  }

  // ----- quoting -----

  datatype Mode = Bare | InSingle | InDouble

  predicate EndsWord(c: char) {
    c in " \t\n|&;<>()"
  }

  predicate Expands(c: char) {
    c in "$`*?[#~=%!{}"
  }

  /**
   The single word a POSIX shell reads from s; None if s is more than one word, is not closed, or holds
   anything that is not literal. The backslash quotes the next character outside quotes.
   */
  function ReadWord(s: string, mode: Mode): Option<string>
    decreases |s|
  {
    if s == "" then if mode == Bare then Some("") else None
    else
      match mode
      case Bare =>
        if s[0] == '\'' then ReadWord(s[1..], InSingle)
        else if s[0] == '"' then ReadWord(s[1..], InDouble)
        else if s[0] == '\\' then
          if |s| == 1 || s[1] == '\n' then None else Prepend(s[1], ReadWord(s[2..], Bare))
        else if EndsWord(s[0]) || Expands(s[0]) then None
        else Prepend(s[0], ReadWord(s[1..], Bare))
      case InSingle =>
        if s[0] == '\'' then ReadWord(s[1..], Bare) else Prepend(s[0], ReadWord(s[1..], InSingle))
      case InDouble =>
        if s[0] == '"' then ReadWord(s[1..], Bare)
        else if s[0] == '$' || s[0] == '`' || s[0] == '\\' then None
        else Prepend(s[0], ReadWord(s[1..], InDouble))
  }

  /** Quoting for startup commands: a quote is put between double quotes. */
  function QuoteShellValue(value: string): string {
    "'" + ReplaceAll(value, '\'', "'\"'\"'") + "'"
  }

  /** Quoting for the injected hook: a quote is put after a backslash. */
  function QuoteForEval(value: string): string {
    "'" + ReplaceAll(value, '\'', "'\\''") + "'"
  }

  predicate ReopensQuote(with: string) {
    with == "'\"'\"'" || with == "'\\''"
  }

  /** Leaving the quotes, giving one quote, and entering them again. */
  lemma ReadReopened(with: string, rest: string)
    requires ReopensQuote(with)
    ensures ReadWord(with + rest, InSingle) == Prepend('\'', ReadWord(rest, InSingle))
  {
    if with == "'\"'\"'" {
      var s1, s2, s3, s4 := "\"'\"'" + rest, "'\"'" + rest, "\"'" + rest, "'" + rest;
      assert (with + rest)[1..] == s1 && s1[1..] == s2 && s2[1..] == s3 && s3[1..] == s4 && s4[1..] == rest;
      assert ReadWord(with + rest, InSingle) == ReadWord(s1, Bare);
      assert ReadWord(s1, Bare) == ReadWord(s2, InDouble);
      assert ReadWord(s2, InDouble) == Prepend('\'', ReadWord(s3, InDouble));
      assert ReadWord(s3, InDouble) == ReadWord(s4, Bare);
    } else {
      var s1, s2 := "\\''" + rest, "'" + rest;
      assert (with + rest)[1..] == s1 && s1[2..] == s2 && s2[1..] == rest;
      assert ReadWord(with + rest, InSingle) == ReadWord(s1, Bare);
      assert ReadWord(s1, Bare) == Prepend('\'', ReadWord(s2, Bare));
    }
  }

  /** One more character between single quotes, and the quote that closes them. */
  lemma ReadSingle(c: char, rest: string)
    ensures ReadWord([c] + rest, InSingle) ==
            if c == '\'' then ReadWord(rest, Bare) else Prepend(c, ReadWord(rest, InSingle))
  {
    assert ([c] + rest)[1..] == rest;
  }

  lemma {:induction false} ReadQuoted(value: string, with: string, rest: string)
    requires ReopensQuote(with)
    ensures ReadWord(ReplaceAll(value, '\'', with) + "'" + rest, InSingle) == Concat(value, ReadWord(rest, Bare))
  {
    hide ReadWord;
    var tail := ReadWord(rest, Bare);
    if value == "" {
      assert ReplaceAll(value, '\'', with) + "'" + rest == ['\''] + rest;
      ReadSingle('\'', rest);
      assert tail.Some? ==> "" + tail.value == tail.value;
    } else {
      ReadQuoted(value[1..], with, rest);
      var more := ReplaceAll(value[1..], '\'', with) + "'" + rest;
      assert tail.Some? ==> [value[0]] + (value[1..] + tail.value) == value + tail.value;
      if value[0] == '\'' {
        assert ReplaceAll(value, '\'', with) + "'" + rest == with + more;
        ReadReopened(with, more);
      } else {
        assert ReplaceAll(value, '\'', with) + "'" + rest == [value[0]] + more;
        ReadSingle(value[0], more);
      }
    }
  }

  /** A shell reads a quoted value back as exactly that value, followed by whatever comes after it. */
  lemma QuotedReadsBack(value: string, rest: string)
    ensures ReadWord(QuoteShellValue(value) + rest, Bare) == Concat(value, ReadWord(rest, Bare))
    ensures ReadWord(QuoteForEval(value) + rest, Bare) == Concat(value, ReadWord(rest, Bare))
  {
    assert (QuoteShellValue(value) + rest)[1..] == ReplaceAll(value, '\'', "'\"'\"'") + "'" + rest;
    assert (QuoteForEval(value) + rest)[1..] == ReplaceAll(value, '\'', "'\\''") + "'" + rest;
    ReadQuoted(value, "'\"'\"'", rest);
    ReadQuoted(value, "'\\''", rest);
  }

  /** On its own a quoted value is one word equal to the value. */
  lemma QuotedIsOneWord(value: string)
    ensures ReadWord(QuoteShellValue(value), Bare) == Some(value)
    ensures ReadWord(QuoteForEval(value), Bare) == Some(value)
  {
    QuotedReadsBack(value, "");
    assert QuoteShellValue(value) + "" == QuoteShellValue(value) && QuoteForEval(value) + "" == QuoteForEval(value);
    assert value + "" == value;
  }
}
