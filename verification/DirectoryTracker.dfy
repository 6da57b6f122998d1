/**
 The terminal's directory as announced by OSC markers in its output: a character machine that keeps one
 bounded marker, against a parse of the whole stream. Characters are code points; lengths are counted in
 UTF-16 code units, as the original does. Decoding bytes is not part of this model.
 */
module DirectoryTracker {
  import opened Common

  const ESC: char := 0x1b as char
  const BEL: char := 0x07 as char
  const MARKER_LIMIT := 8192
  const DIRECTORY_LIMIT := 4096

  function Units(c: char): nat {
    if c as int >= 0x10000 then 2 else 1
  }

  function Length(s: string): nat {
    if s == "" then 0 else Length(s[..|s| - 1]) + Units(s[|s| - 1])
  }

  // ----- values of a marker -----

  predicate IsHex(c: char) {
    '0' <= c <= '9' || 'a' <= c <= 'f' || 'A' <= c <= 'F'
  }

  function HexValue(c: char): nat
    requires IsHex(c)
  {
    if '0' <= c <= '9' then c as int - '0' as int
    else if 'a' <= c <= 'f' then c as int - 'a' as int + 10
    else c as int - 'A' as int + 10
  }

  /** The first character of an escaped value, and how much of the value stands for it. */
  datatype Token = Token(character: char, size: nat)

  /** `\\` is a backslash, `\xHH` a character, any other escape is an error. */
  function FirstToken(value: string): (r: Option<Token>)
    requires value != ""
    ensures r.Some? ==> 1 <= r.value.size <= |value|
  {
    if value[0] != '\\' then Some(Token(value[0], 1))
    else if |value| >= 2 && value[1] == '\\' then Some(Token('\\', 2))
    else if |value| >= 4 && value[1] == 'x' && IsHex(value[2]) && IsHex(value[3]) then
      Some(Token((HexValue(value[2]) * 16 + HexValue(value[3])) as char, 4))
    else None
  }

  /** The meaning of an escaped value. */
  function Unescape(value: string): Option<string> {
    if value == "" then Some("")
    else
      var token := FirstToken(value);
      if token.None? then None else Prepend(token.value.character, Unescape(value[token.value.size..]))
  }

  function Prepend(c: char, rest: Option<string>): Option<string> {
    if rest.None? then None else Some([c] + rest.value)
  }

  /** One token of the value, read in place. */
  method ReadToken(value: string, index: nat) returns (token: Option<Token>)
    requires index < |value|
    ensures token == FirstToken(value[index..])
  {
    if value[index] != '\\' { return Some(Token(value[index], 1)); }
    if index + 1 < |value| && value[index + 1] == '\\' { return Some(Token('\\', 2)); }
    if index + 3 < |value| && value[index + 1] == 'x' && IsHex(value[index + 2]) && IsHex(value[index + 3]) {
      return Some(Token((HexValue(value[index + 2]) * 16 + HexValue(value[index + 3])) as char, 4));
    }
    token := None;
  }

  /** One pass that stops as soon as the value is too long. */
  method Deserialize(value: string) returns (r: Option<string>)
    ensures r == Decoded(value)
  {
    hide FirstToken, IsHex, HexValue;
    if Length(value) > 4 * DIRECTORY_LIMIT { return None; }
    var decoded := "";
    var index := 0;
    assert value[0..] == value;
    if Unescape(value).Some? {
      assert "" + Unescape(value).value == Unescape(value).value;
    }
    while index < |value|
      invariant 0 <= index <= |value| && Length(decoded) <= DIRECTORY_LIMIT
      invariant Unescape(value) == Concat(decoded, Unescape(value[index..]))
    {
      var token := ReadToken(value, index);
      if token.None? { return None; }
      AppendToken(value, index, decoded, token.value);
      decoded := decoded + [token.value.character];
      index := index + token.value.size;
      if Length(decoded) > DIRECTORY_LIMIT {
        if Unescape(value).Some? {
          LengthConcat(decoded, Unescape(value[index..]).value);
        }
        return None;
      }
    }
    assert value[index..] == "";
    assert decoded + "" == decoded;
    r := Some(decoded);
  }

  /** What the one pass computes. */
  function Decoded(value: string): Option<string> {
    if Length(value) > 4 * DIRECTORY_LIMIT then None
    else
      var decoded := Unescape(value);
      if decoded.Some? && Length(decoded.value) <= DIRECTORY_LIMIT then decoded else None
  }

  lemma AppendToken(value: string, index: nat, decoded: string, token: Token)
    requires index < |value| && FirstToken(value[index..]) == Some(token)
    ensures Concat(decoded, Unescape(value[index..])) ==
            Concat(decoded + [token.character], Unescape(value[index + token.size..]))
  {
    hide FirstToken;
    assert value[index..][token.size..] == value[index + token.size..];
    var tail := Unescape(value[index + token.size..]);
    if tail.Some? {
      assert decoded + ([token.character] + tail.value) == decoded + [token.character] + tail.value;
    }
  }

  function Concat(before: string, rest: Option<string>): Option<string> {
    if rest.None? then None else Some(before + rest.value)
  }

  lemma {:induction false} LengthConcat(left: string, right: string)
    ensures Length(left + right) == Length(left) + Length(right)
  {
    if right == "" {
      assert left + right == left;
    } else {
      assert (left + right)[..|left + right| - 1] == left + right[..|right| - 1];
      LengthConcat(left, right[..|right| - 1]);
    }
  }

  predicate IsAbsolute(directory: string) {
    (|directory| >= 1 && directory[0] == '/')
    || (|directory| >= 3 && ('A' <= directory[0] <= 'Z' || 'a' <= directory[0] <= 'z') && directory[1] == ':'
        && (directory[2] == '\\' || directory[2] == '/'))
  }

  predicate IsControl(c: char) {
    c as int < 32 || c as int == 127
  }

  predicate HasControl(s: string) {
    exists k :: 0 <= k < |s| && IsControl(s[k])
  }

  const CWD: string := "633;P;Cwd="

  /** The directory a marker names, if any; how a `7;` marker's URL is read is a parameter. */
  function Named(marker: string, url: string -> Option<string>): Option<string> {
    if CWD <= marker then
      Decoded(marker[|CWD|..])
    else if "7;" <= marker then url(marker[2..])
    else None
  }

  function Accepted(marker: string, directory: Option<string>, url: string -> Option<string>): Option<string> {
    var named := Named(marker, url);
    if named.Some? && Length(named.value) <= DIRECTORY_LIMIT && IsAbsolute(named.value) && !HasControl(named.value)
    then named else directory
  }

  // ----- the character machine -----

  datatype Mode = Text | Escape | Osc | OscEscape

  datatype Machine = Machine(mode: Mode, marker: string, overflow: bool, directory: Option<string>)

  function Start(directory: Option<string>): Machine {
    Machine(Text, "", false, directory)
  }

  function Step(m: Machine, c: char, url: string -> Option<string>): Machine {
    match m.mode
    case Text => if c == ESC then m.(mode := Escape) else m
    case Escape => Machine(if c == ']' then Osc else Text, "", false, m.directory)
    case _ =>
      if c == BEL || (m.mode == OscEscape && c == '\\') then
        Machine(Text, "", m.overflow, if m.overflow then m.directory else Accepted(m.marker, m.directory, url))
      else if c == ESC then m.(mode := OscEscape)
      else if Length(m.marker) < MARKER_LIMIT then
        m.(mode := Osc, marker := m.marker + [c], overflow := m.overflow || m.mode == OscEscape)
      else m.(mode := Osc, overflow := true)
  }

  function Run(m: Machine, s: string, url: string -> Option<string>): Machine {
    if s == "" then m else Step(Run(m, s[..|s| - 1], url), s[|s| - 1], url)
  }

  lemma {:induction false} RunConcat(m: Machine, left: string, right: string, url: string -> Option<string>)
    ensures Run(m, left + right, url) == Run(Run(m, left, url), right, url)
  {
    if right == "" {
      assert left + right == left;
    } else {
      assert (left + right)[..|left + right| - 1] == left + right[..|right| - 1];
      RunConcat(m, left, right[..|right| - 1], url);
    }
  }

  class TerminalDirectoryTracker {
    const url: string -> Option<string>
    var mode: Mode
    var marker: string
    var overflow: bool
    var directory: Option<string>

    function Now(): Machine
      reads this
    {
      Machine(mode, marker, overflow, directory)
    }

    constructor (directory: Option<string>, url: string -> Option<string>)
      ensures Now() == Start(directory) && this.url == url
    {
      this.url, this.directory := url, directory;
      mode, marker, overflow := Text, "", false;
    }

    method Accept()
      modifies `directory
      ensures directory == Accepted(marker, old(directory), url)
    {
      var named := None;
      if CWD <= marker {
        named := Deserialize(marker[|CWD|..]);
      } else if "7;" <= marker {
        named := url(marker[2..]);
      }
      if named.Some? && Length(named.value) <= DIRECTORY_LIMIT && IsAbsolute(named.value)
        && !(exists k :: 0 <= k < |named.value| && IsControl(named.value[k]))
      {
        directory := named;
      }
    }

    /** A chunk of output moves the machine character by character. */
    method Receive(chunk: string)
      modifies this
      ensures Now() == Run(old(Now()), chunk, url)
    {
      hide Accepted;
      for i := 0 to |chunk|
        invariant Now() == Run(old(Now()), chunk[..i], url)
      {
        assert chunk[..i + 1][..i] == chunk[..i];
        var character := chunk[i];
        if mode == Text {
          if character == ESC { mode := Escape; }
        } else if mode == Escape {
          mode := if character == ']' then Osc else Text;
          marker := "";
          overflow := false;
        } else if character == BEL || (mode == OscEscape && character == '\\') {
          if !overflow { Accept(); }
          marker := "";
          mode := Text;
        } else if character == ESC {
          mode := OscEscape;
        } else {
          if mode == OscEscape { overflow := true; }
          mode := Osc;
          if Length(marker) < MARKER_LIMIT {
            marker := marker + [character];
          } else {
            overflow := true;
          }
        }
      }
      assert chunk[..|chunk|] == chunk;
    }
  }

  // ----- the whole stream -----

  /** The first position from `from` on where the body of a marker ends, or the length of the stream. */
  function BodyEnd(s: string, from: nat, at: nat): (r: nat)
    requires from <= at <= |s|
    ensures at <= r <= |s|
    decreases |s| - at
  {
    if at == |s| || s[at] == BEL || (s[at] == '\\' && at > from && s[at - 1] == ESC) then at
    else BodyEnd(s, from, at + 1)
  }

  /** A body without the escape characters that announce its end. */
  function Content(body: string): string {
    if body == "" then ""
    else Content(body[..|body| - 1]) + if body[|body| - 1] == ESC then "" else [body[|body| - 1]]
  }

  /** Escape characters only stand directly before the end. */
  predicate WellFormed(body: string) {
    forall k :: 0 <= k < |body| - 1 && body[k] == ESC ==> body[k + 1] == ESC
  }

  /** Every character was added while the marker was still short enough. */
  predicate Fits(content: string) {
    forall k :: 0 <= k < |content| ==> Length(content[..k]) < MARKER_LIMIT
  }

  /** The directory after a whole stream: the last accepted of its complete, well-formed, fitting markers. */
  function Directory(s: string, directory: Option<string>, url: string -> Option<string>): Option<string>
    decreases |s|
  {
    if s == "" then directory
    else if s[0] != ESC then Directory(s[1..], directory, url)
    else if |s| == 1 then directory
    else if s[1] != ']' then Directory(s[2..], directory, url)
    else
      var end := BodyEnd(s, 2, 2);
      if end >= |s| then directory
      else
        var body := s[2..end];
        Directory(
          s[end + 1..],
          if WellFormed(body) && Fits(Content(body)) then Accepted(Content(body), directory, url) else directory, url)
  }

  // ----- the machine computes the parse -----

  predicate Ends(s: string, from: nat, k: nat)
    requires from <= k < |s|
  {
    s[k] == BEL || (s[k] == '\\' && k > from && s[k - 1] == ESC)
  }

  lemma {:induction false} BodyEndIsFirst(s: string, from: nat, at: nat)
    requires from <= at <= |s|
    ensures forall k :: at <= k < BodyEnd(s, from, at) ==> !Ends(s, from, k)
    ensures BodyEnd(s, from, at) < |s| ==> Ends(s, from, BodyEnd(s, from, at))
    decreases |s| - at
  {
    if !(at == |s| || Ends(s, from, at)) {
      BodyEndIsFirst(s, from, at + 1);
    }
  }

  predicate Endless(body: string) {
    forall k :: 0 <= k < |body| ==> !Ends(body, 0, k)
  }

  lemma {:induction false} BodyEndPrefix(s: string, from: nat)
    requires from <= |s|
    ensures Endless(s[from..BodyEnd(s, from, from)])
    ensures var end := BodyEnd(s, from, from);
            end < |s| ==> s[end] == BEL || (s[end] == '\\' && end > from && s[end - 1] == ESC)
  {
    BodyEndIsFirst(s, from, from);
    var end := BodyEnd(s, from, from);
    var body := s[from..end];
    forall k | 0 <= k < |body| ensures !Ends(body, 0, k) {
      assert !Ends(s, from, from + k);
    }
  }

  predicate EndsWithEscape(body: string) {
    |body| > 0 && body[|body| - 1] == ESC
  }

  /** Where the machine is after the body of a marker. */
  predicate InBody(m: Machine, body: string, directory: Option<string>) {
    && m.mode == (if EndsWithEscape(body) then OscEscape else Osc)
    && m.directory == directory
    && m.overflow == !(WellFormed(body) && Fits(Content(body)))
    && (if Fits(Content(body)) then m.marker == Content(body) else Length(m.marker) >= MARKER_LIMIT)
  }

  lemma WellFormedSnoc(body: string, c: char)
    ensures WellFormed(body + [c]) <==> WellFormed(body) && (EndsWithEscape(body) ==> c == ESC)
  {
    var longer := body + [c];
    if WellFormed(longer) {
      forall k | 0 <= k < |body| - 1 && body[k] == ESC ensures body[k + 1] == ESC {
        assert longer[k] == ESC && longer[k + 1] == body[k + 1];
      }
      if EndsWithEscape(body) {
        assert longer[|body| - 1] == ESC && longer[|body| - 1 + 1] == c;
      }
    }
    if WellFormed(body) && (EndsWithEscape(body) ==> c == ESC) {
      forall k | 0 <= k < |longer| - 1 && longer[k] == ESC ensures longer[k + 1] == ESC {
        if k < |body| - 1 {
          assert body[k] == ESC;
        }
      }
    }
  }

  lemma FitsSnoc(content: string, c: char)
    ensures Fits(content + [c]) <==> Fits(content) && Length(content) < MARKER_LIMIT
  {
    var longer := content + [c];
    assert longer[..|content|] == content;
    assert forall k :: 0 <= k < |content| ==> longer[..k] == content[..k];
  }

  lemma EmptyBody(directory: Option<string>)
    ensures InBody(Machine(Osc, "", false, directory), "", directory)
  {
  }

  lemma {:induction false} BodyRun(body: string, directory: Option<string>, url: string -> Option<string>)
    requires Endless(body)
    ensures InBody(Run(Machine(Osc, "", false, directory), body, url), body, directory)
  {
    if body == "" {
      EmptyBody(directory);
    } else {
      hide Accepted, WellFormed, Fits, Length;
      var init, c := body[..|body| - 1], body[|body| - 1];
      assert body == init + [c];
      forall k | 0 <= k < |init| ensures !Ends(init, 0, k) {
        assert !Ends(body, 0, k);
      }
      BodyRun(init, directory, url);
      assert !Ends(body, 0, |init|);
      WellFormedSnoc(init, c);
      FitsSnoc(Content(init), c);
      if c == ESC {
        assert Content(body) == Content(init);
      } else {
        assert Content(body) == Content(init) + [c];
      }
    }
  }

  lemma RunFirst(m: Machine, s: string, n: nat, url: string -> Option<string>)
    requires n <= |s|
    ensures Run(m, s, url) == Run(Run(m, s[..n], url), s[n..], url)
  {
    assert s == s[..n] + s[n..];
    RunConcat(m, s[..n], s[n..], url);
  }

  lemma RunOne(m: Machine, c: char, url: string -> Option<string>)
    ensures Run(m, [c], url) == Step(m, c, url)
  {
    assert [c][..0] == "";
  }

  lemma RunTwo(m: Machine, s: string, url: string -> Option<string>)
    requires |s| >= 2
    ensures Run(m, s[..2], url) == Step(Step(m, s[0], url), s[1], url)
  {
    assert s[..2][..1] == [s[0]];
    RunOne(m, s[0], url);
  }

  /** A complete marker, from its announcement to its end. */
  lemma MarkerRun(m: Machine, s: string, url: string -> Option<string>)
    requires m.mode == Text && |s| >= 2 && s[0] == ESC && s[1] == ']'
    ensures var end := BodyEnd(s, 2, 2);
            if end >= |s| then Run(m, s, url).directory == m.directory
            else
              var body := s[2..end];
              Run(m, s[..end + 1], url) == Machine(
                Text, "", !(WellFormed(body) && Fits(Content(body))),
                if WellFormed(body) && Fits(Content(body)) then Accepted(Content(body), m.directory, url)
                else m.directory)
  {
    hide Accepted, WellFormed, Fits;
    var end := BodyEnd(s, 2, 2);
    var body := s[2..end];
    BodyEndPrefix(s, 2);
    RunTwo(m, s, url);
    BodyRun(body, m.directory, url);
    RunFirst(m, s[..end], 2, url);
    assert s[..end][..2] == s[..2] && s[..end][2..] == body;
    var before := Run(m, s[..end], url);
    assert InBody(before, body, m.directory);
    if end >= |s| {
      assert s[..end] == s;
    } else {
      assert s[..end + 1][..end] == s[..end];
      assert s[end] == '\\' && s[end] != BEL ==> EndsWithEscape(body);
    }
  }

  /** The online machine agrees with the parse of the whole stream. */
  lemma {:induction false} OnlineIsWholeStream(m: Machine, s: string, url: string -> Option<string>)
    requires m.mode == Text
    ensures Run(m, s, url).directory == Directory(s, m.directory, url)
    decreases |s|
  {
    hide Accepted, WellFormed, Fits;
    if s == "" {
    } else if s[0] != ESC {
      RunFirst(m, s, 1, url);
      RunOne(m, s[0], url);
      assert s[..1] == [s[0]];
      OnlineIsWholeStream(m, s[1..], url);
    } else if |s| == 1 {
      RunOne(m, s[0], url);
      assert s == [s[0]];
    } else if s[1] != ']' {
      RunFirst(m, s, 2, url);
      RunTwo(m, s, url);
      OnlineIsWholeStream(Run(m, s[..2], url), s[2..], url);
    } else {
      MarkerRun(m, s, url);
      var end := BodyEnd(s, 2, 2);
      if end < |s| {
        RunFirst(m, s, end + 1, url);
        OnlineIsWholeStream(Run(m, s[..end + 1], url), s[end + 1..], url);
      }
    }
  }

  function Flatten(chunks: seq<string>): string {
    if chunks == [] then "" else Flatten(chunks[..|chunks| - 1]) + chunks[|chunks| - 1]
  }

  /** However the stream is cut, the tracker ends with the directory of the whole stream. */
  method Track(directory: Option<string>, chunks: seq<string>, url: string -> Option<string>)
    returns (final: Option<string>)
    ensures final == Directory(Flatten(chunks), directory, url)
  {
    hide Step, Directory;
    var tracker := new TerminalDirectoryTracker(directory, url);
    for i := 0 to |chunks|
      invariant fresh(tracker) && tracker.url == url
      invariant tracker.Now() == Run(Start(directory), Flatten(chunks[..i]), url)
    {
      assert chunks[..i + 1][..i] == chunks[..i];
      tracker.Receive(chunks[i]);
      RunConcat(Start(directory), Flatten(chunks[..i]), chunks[i], url);
    }
    assert chunks[..|chunks|] == chunks;
    OnlineIsWholeStream(Start(directory), Flatten(chunks), url);
    final := tracker.directory;
  }

  /** The machine never keeps more than the limit and one character. */
  lemma {:induction false} MarkerBounded(directory: Option<string>, s: string, url: string -> Option<string>)
    ensures Length(Run(Start(directory), s, url).marker) <= MARKER_LIMIT + 1
  {
    if s != "" {
      MarkerBounded(directory, s[..|s| - 1], url);
      var m := Run(Start(directory), s[..|s| - 1], url);
      assert (m.marker + [s[|s| - 1]])[..|m.marker|] == m.marker;
    }
  }

  const LOWER_DIGITS: string := "0123456789abcdef"
  const UPPER_DIGITS: string := "0123456789ABCDEF"

  /** Every character below 256 can be written in hexadecimal, with letters of either case. */
  lemma HexEscapes(high: nat, low: nat, first: string, second: string)
    requires high < 16 && low < 16
    requires first == LOWER_DIGITS || first == UPPER_DIGITS
    requires second == LOWER_DIGITS || second == UPPER_DIGITS
    ensures Unescape(['\\', 'x', first[high], second[low]]) == Some([(high * 16 + low) as char])
  {
    var value := ['\\', 'x', first[high], second[low]];
    DigitValue(high, first);
    DigitValue(low, second);
    var character := (high * 16 + low) as char;
    assert FirstToken(value) == Some(Token(character, 4));
    assert value[4..] == "" && [character] + "" == [character];
    assert Unescape(value) == Prepend(character, Unescape(value[4..]));
  }

  lemma DigitValue(n: nat, digits: string)
    requires n < 16 && (digits == LOWER_DIGITS || digits == UPPER_DIGITS)
    ensures IsHex(digits[n]) && HexValue(digits[n]) == n
  {
  }

  // ----- what the directory always is -----

  /** An absolute path without control characters, of at most 4,096 units. */
  predicate Proper(directory: string) {
    && IsAbsolute(directory) && Length(directory) <= 4096
    && forall k :: 0 <= k < |directory| ==> 32 <= directory[k] as int && directory[k] as int != 127
  }

  /** Whatever the terminal prints, the directory is the one it began with or a proper one. */
  lemma {:induction false} AlwaysProper(m: Machine, s: string, url: string -> Option<string>)
    ensures var directory := Run(m, s, url).directory;
            directory == m.directory || (directory.Some? && Proper(directory.value))
  {
    hide Length, IsAbsolute, Named;
    if s != "" {
      AlwaysProper(m, s[..|s| - 1], url);
    }
  }
}
