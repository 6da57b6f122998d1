/**
 The text a model is given: the last part of the conversation, the explicit context and the attached
 files, cut to a window, with a report of how much of each source survived. A string is a sequence of
 UTF-16 code units; redaction is an arbitrary function on strings.
 */
module AiContext {
  const HISTORY_MESSAGES := 32
  const BASE_CHARACTERS := 24_576
  const TOTAL_CHARACTERS := 131_072
  const SEPARATOR := "\n\n"

  /** The last n characters. */
  function Last(n: nat, s: string): string {
    if |s| <= n then s else s[|s| - n..]
  }

  /** Non-empty parts, separated by an empty line. */
  function Join(left: string, right: string): string {
    if left == "" then right else if right == "" then left else left + SEPARATOR + right
  }

  function JoinAll(parts: seq<string>): string {
    if parts == [] then "" else Join(JoinAll(parts[..|parts| - 1]), parts[|parts| - 1])
  }

  // ----- the history window -----

  lemma LastOfConcat(n: nat, left: string, right: string)
    ensures Last(n, Last(n, left) + right) == Last(n, left + right)
    ensures Last(n, left + Last(n, right)) == Last(n, left + right)
  {
    LeftTrimmed(n, left, right);
    RightTrimmed(n, left, right);
  }

  lemma LeftTrimmed(n: nat, left: string, right: string)
    ensures Last(n, Last(n, left) + right) == Last(n, left + right)
  {
    if |left| > n {
      var whole, cut := left + right, left[|left| - n..] + right;
      assert cut == whole[|left| - n..];
      assert cut[|cut| - n..] == whole[|whole| - n..];
    }
  }

  lemma RightTrimmed(n: nat, left: string, right: string)
    ensures Last(n, left + Last(n, right)) == Last(n, left + right)
  {
    if |right| > n {
      var whole, cut := left + right, left + right[|right| - n..];
      assert cut[|cut| - n..] == right[|right| - n..];
      assert whole[|whole| - n..] == right[|right| - n..];
    }
  }

  lemma LastTwice(n: nat, s: string)
    ensures Last(n, Last(n, s)) == Last(n, s)
  {
  }

  lemma LastEmpty(n: nat, s: string)
    requires n > 0
    ensures Last(n, s) == "" <==> s == ""
  {
  }

  /** Trimming the parts before they are joined does not change the window. */
  lemma LastOfJoin(n: nat, left: string, right: string)
    requires n > 0
    ensures Last(n, Join(Last(n, left), Last(n, right))) == Last(n, Join(left, right))
  {
    if left == "" || right == "" {
      LastTwice(n, left);
      LastTwice(n, right);
    } else {
      hide Last;
      LastEmpty(n, left);
      LastEmpty(n, right);
      LastOfConcat(n, Last(n, left) + SEPARATOR, right);
      LastOfConcat(n, left, SEPARATOR + right);
      assert Last(n, left) + SEPARATOR + right == Last(n, left) + (SEPARATOR + right);
      assert left + SEPARATOR + right == left + (SEPARATOR + right);
    }
  }

  /** The counter the report compares with: it adds a separator whenever something came before. */
  function SafeLength(parts: seq<string>): nat {
    if parts == [] then 0
    else
      var before := SafeLength(parts[..|parts| - 1]);
      before + |parts[|parts| - 1]| + if before > 0 then |SEPARATOR| else 0
  }

  /** A message that redaction left empty, after one that it did not. */
  predicate LateEmpty(parts: seq<string>) {
    exists k :: 0 <= k < |parts| && parts[k] == "" && JoinAll(parts[..k]) != ""
  }

  /** The counter never falls short of the joined text, and is exact unless a late message came out empty. */
  lemma {:induction false} SafeLengthCounts(parts: seq<string>)
    ensures SafeLength(parts) >= |JoinAll(parts)|
    ensures SafeLength(parts) > 0 <==> JoinAll(parts) != ""
    ensures SafeLength(parts) == |JoinAll(parts)| <==> !LateEmpty(parts)
  {
    if parts != [] {
      var init := parts[..|parts| - 1];
      SafeLengthCounts(init);
      assert forall k :: 0 <= k < |init| ==> parts[..k] == init[..k] && parts[k] == init[k];
      if LateEmpty(init) {
        var k :| 0 <= k < |init| && init[k] == "" && JoinAll(init[..k]) != "";
        assert parts[k] == "" && JoinAll(parts[..k]) != "";
      }
      if LateEmpty(parts) && !LateEmpty(init) {
        var k :| 0 <= k < |parts| && parts[k] == "" && JoinAll(parts[..k]) != "";
        assert k == |init|;
      }
      if parts[|init|] == "" && JoinAll(init) != "" {
        assert parts[..|init|] == init;
      }
    }
  }

  datatype Message = Message(fromUser: bool, content: string)

  function Rendered(message: Message): string {
    (if message.fromUser then "User: " else "Assistant: ") + message.content
  }

  function Sanitized(messages: seq<Message>, sanitize: string -> string): seq<string> {
    seq(|messages|, i requires 0 <= i < |messages| => sanitize(Rendered(messages[i])))
  }

  /** The last messages, if the conversation is included at all. */
  function Selected(history: seq<Message>, including: bool): seq<Message> {
    if !including then []
    else if |history| <= HISTORY_MESSAGES then history else history[|history| - HISTORY_MESSAGES..]
  }

  /** Message by message, trimming as it goes: the result is the window on everything joined. */
  method BuildHistory(selected: seq<Message>, sanitize: string -> string) returns (history: string, safeLength: nat)
    ensures history == Last(BASE_CHARACTERS, JoinAll(Sanitized(selected, sanitize)))
    ensures safeLength == SafeLength(Sanitized(selected, sanitize))
  {
    history, safeLength := "", 0;
    ghost var parts := Sanitized(selected, sanitize);
    for i := 0 to |selected|
      invariant history == Last(BASE_CHARACTERS, JoinAll(parts[..i])) && safeLength == SafeLength(parts[..i])
    {
      assert parts[..i + 1][..i] == parts[..i];
      var safe := sanitize(Rendered(selected[i]));
      LastOfJoin(BASE_CHARACTERS, JoinAll(parts[..i]), safe);
      safeLength := safeLength + |safe| + if safeLength > 0 then |SEPARATOR| else 0;
      history := Last(BASE_CHARACTERS, Join(history, Last(BASE_CHARACTERS, safe)));
    }
    assert parts[..|selected|] == parts;
  }

  // ----- segments -----

  datatype Kind = History | Explicit | AttachedFile

  /** A piece of source text and where it stands in the untrimmed text. */
  datatype Segment = Segment(kind: Kind, text: string, safeLength: nat, start: nat, end: nat, truncated: bool)

  datatype Source = Source(kind: Kind, included: string, position: nat, truncated: bool)

  /** The segment's text is what stands at its place. */
  predicate Stands(whole: string, segment: Segment) {
    segment.start <= segment.end <= |whole| && whole[segment.start..segment.end] == segment.text
  }

  predicate StandInOrder(whole: string, segments: seq<Segment>) {
    && (forall k :: 0 <= k < |segments| ==> Stands(whole, segments[k]))
    && (forall j, k :: 0 <= j < k < |segments| ==> segments[j].end <= segments[k].start)
  }

  lemma StandsInLonger(whole: string, more: string, segments: seq<Segment>)
    requires StandInOrder(whole, segments)
    ensures StandInOrder(whole + more, segments)
  {
    forall k | 0 <= k < |segments| ensures Stands(whole + more, segments[k]) {
      assert Stands(whole, segments[k]);
      assert (whole + more)[segments[k].start..segments[k].end] == whole[segments[k].start..segments[k].end];
    }
  }

  lemma AppendSegment(whole: string, segments: seq<Segment>, segment: Segment)
    requires StandInOrder(whole, segments) && Stands(whole, segment)
    requires forall k :: 0 <= k < |segments| ==> segments[k].end <= segment.start
    ensures StandInOrder(whole, segments + [segment])
  {
    hide Stands;
    assert forall k :: 0 <= k < |segments| ==> (segments + [segment])[k] == segments[k];
  }

  datatype Attachment = Attachment(header: string, content: string, truncated: bool)

  function Footer(truncated: bool): string {
    (if truncated then "\n...[truncated]" else "") + "\n</file>"
  }

  /** A file as it is added to a text that is not empty, or to an empty one. */
  function Added(before: string, attachment: Attachment, sanitize: string -> string): string {
    (if before != "" then SEPARATOR else "") + attachment.header
    + sanitize(attachment.content) + Footer(attachment.truncated)
  }

  /** The base followed by the attached files, one after the other. */
  function WithFiles(base: string, attachments: seq<Attachment>, sanitize: string -> string): string {
    if attachments == [] then base
    else
      var before := WithFiles(base, attachments[..|attachments| - 1], sanitize);
      before + Added(before, attachments[|attachments| - 1], sanitize)
  }

  lemma NoFiles(base: string, attachments: seq<Attachment>, sanitize: string -> string)
    ensures WithFiles(base, attachments[..0], sanitize) == base
  {
  }

  lemma OneMoreFile(base: string, attachments: seq<Attachment>, i: nat, before: string, sanitize: string -> string)
    requires i < |attachments| && before == WithFiles(base, attachments[..i], sanitize)
    ensures WithFiles(base, attachments[..i + 1], sanitize) ==
            before + ((if before != "" then SEPARATOR else "") + attachments[i].header)
            + sanitize(attachments[i].content) + Footer(attachments[i].truncated)
  {
    assert attachments[..i + 1][..i] == attachments[..i];
    hide Footer;
    var opening := (if before != "" then SEPARATOR else "") + attachments[i].header;
    assert before + (opening + sanitize(attachments[i].content) + Footer(attachments[i].truncated)) ==
           before + opening + sanitize(attachments[i].content) + Footer(attachments[i].truncated);
  }

  /** The number of characters that files add behind a text that is not empty. */
  function Behind(attachments: seq<Attachment>, sanitize: string -> string): nat {
    if attachments == [] then 0
    else
      |SEPARATOR| + |attachments[0].header| + |sanitize(attachments[0].content)| + |Footer(attachments[0].truncated)|
      + Behind(attachments[1..], sanitize)
  }

  lemma {:induction false} BehindSplit(left: seq<Attachment>, right: seq<Attachment>, sanitize: string -> string)
    ensures Behind(left + right, sanitize) == Behind(left, sanitize) + Behind(right, sanitize)
  {
    if left == [] {
      assert left + right == right;
    } else {
      assert (left + right)[1..] == left[1..] + right;
      BehindSplit(left[1..], right, sanitize);
    }
  }

  /** Behind a text that is not empty the files add just that. */
  lemma {:induction false} FilesBehind(
    base: string, attachments: seq<Attachment>, k: nat, sanitize: string -> string)
    requires k <= |attachments| && WithFiles(base, attachments[..k], sanitize) != ""
    ensures WithFiles(base, attachments, sanitize) != ""
    ensures |WithFiles(base, attachments, sanitize)| ==
            |WithFiles(base, attachments[..k], sanitize)| + Behind(attachments[k..], sanitize)
    decreases |attachments|
  {
    if k == |attachments| {
      assert attachments[..k] == attachments;
    } else {
      var init, last := attachments[..|attachments| - 1], attachments[|attachments| - 1];
      assert init[..k] == attachments[..k] && attachments[k..] == init[k..] + [last];
      FilesBehind(base, init, k, sanitize);
      BehindSplit(init[k..], [last], sanitize);
      assert [last][1..] == [];
    }
  }

  /** History and explicit context, with the segments they make up. */
  method BuildBase(
    history: string, safeLength: nat, anySelected: bool, more: bool, context: string, sanitize: string -> string
  ) returns (fullBase: string, segments: seq<Segment>)
    ensures fullBase == Join(history, sanitize(context))
    ensures StandInOrder(fullBase, segments)
    ensures segments ==
            (if anySelected then [Segment(History, history, safeLength, 0, |history|, more)] else [])
            + (if context != "" then
                 var explicit := sanitize(context);
                 [Segment(Explicit, explicit, |explicit|, |fullBase| - |explicit|, |fullBase|, false)]
               else [])
    requires !anySelected ==> history == ""
  {
    var explicit := sanitize(context);
    fullBase := Join(history, explicit);
    segments := [];
    if anySelected {
      segments := [Segment(History, history, safeLength, 0, |history|, more)];
      assert fullBase[0..|history|] == history;
    }
    if context != "" {
      var segment := Segment(Explicit, explicit, |explicit|, |fullBase| - |explicit|, |fullBase|, false);
      assert fullBase[|fullBase| - |explicit|..] == explicit;
      AppendSegment(fullBase, segments, segment);
      segments := segments + [segment];
    }
  }

  /** The attached files follow the trimmed base; dropped is the part of the base that was trimmed away. */
  method Attach(
    dropped: string, baseContext: string, before: seq<Segment>, attachments: seq<Attachment>,
    sanitize: string -> string
  ) returns (combined: string, segments: seq<Segment>)
    requires StandInOrder(dropped + baseContext, before)
    requires forall k :: 0 <= k < |attachments| ==> attachments[k].header != ""
    ensures StandInOrder(dropped + combined, segments)
    ensures |segments| == |before| + |attachments| && before <= segments
    ensures forall k :: 0 <= k < |attachments| ==> FileSegment(segments[|before| + k], attachments[k], sanitize)
    ensures combined == WithFiles(baseContext, attachments, sanitize)
    ensures forall k :: 0 <= k < |attachments| ==>
              segments[|before| + k].end + |Footer(attachments[k].truncated)| ==
              |dropped| + |WithFiles(baseContext, attachments[..k + 1], sanitize)|
  {
    hide StandInOrder, FileSegment, WithFiles;
    combined, segments := baseContext, before;
    NoFiles(baseContext, attachments, sanitize);
    for i := 0 to |attachments|
      invariant StandInOrder(dropped + combined, segments)
      invariant combined == WithFiles(baseContext, attachments[..i], sanitize)
      invariant |segments| == |before| + i && before <= segments
      invariant forall k :: 0 <= k < i ==>
                  segments[|before| + k].end + |Footer(attachments[k].truncated)| ==
                  |dropped| + |WithFiles(baseContext, attachments[..k + 1], sanitize)|
      invariant forall k :: 0 <= k < i ==> FileSegment(segments[|before| + k], attachments[k], sanitize)
    {
      var safeContent := sanitize(attachments[i].content);
      var opening := (if combined != "" then SEPARATOR else "") + attachments[i].header;
      var closing := Footer(attachments[i].truncated);
      var start := |combined + opening|;
      var segment := Segment(
        AttachedFile, safeContent, |safeContent|, start + |dropped|, start + |dropped| + |safeContent|,
        attachments[i].truncated);
      FileAppended(dropped + combined, opening, closing, segments, segment);
      FileSegmentOf(segment, attachments[i], sanitize);
      Regrouped(dropped, combined, opening, safeContent, closing);
      OneMoreFile(baseContext, attachments, i, combined, sanitize);
      combined := combined + opening + safeContent + closing;
      segments := segments + [segment];
    }
    assert attachments[..|attachments|] == attachments;
  }

  lemma Regrouped(dropped: string, combined: string, opening: string, content: string, closing: string)
    ensures dropped + (combined + opening + content + closing) == dropped + combined + (opening + content + closing)
  {
  }

  lemma FileAppended(whole: string, opening: string, closing: string, segments: seq<Segment>, segment: Segment)
    requires StandInOrder(whole, segments)
    requires segment.start == |whole| + |opening| && segment.end == segment.start + |segment.text|
    ensures StandInOrder(whole + (opening + segment.text + closing), segments + [segment])
  {
    var longer := whole + (opening + segment.text + closing);
    assert forall k :: 0 <= k < |segments| ==> Stands(whole, segments[k]);
    StandsInLonger(whole, opening + segment.text + closing, segments);
    assert longer[segment.start..segment.end] == segment.text;
    AppendSegment(longer, segments, segment);
  }

  lemma FileSegmentOf(segment: Segment, attachment: Attachment, sanitize: string -> string)
    requires segment.kind == AttachedFile && segment.text == sanitize(attachment.content)
    requires segment.safeLength == |segment.text| && segment.truncated == attachment.truncated
    requires segment.start + |segment.text| == segment.end
    ensures FileSegment(segment, attachment, sanitize)
  {
  }

  predicate FileSegment(segment: Segment, attachment: Attachment, sanitize: string -> string) {
    && segment.kind == AttachedFile && segment.text == sanitize(attachment.content)
    && segment.safeLength == |segment.text| && segment.truncated == attachment.truncated
    && segment.start + |segment.text| == segment.end
  }

  // ----- the report -----

  /** The number of characters of a segment that the final context still holds. */
  function Reach(segment: Segment, retainedStart: nat): nat {
    var start := if retainedStart > segment.start then retainedStart else segment.start;
    if segment.end > start then segment.end - start else 0
  }

  predicate StandsAt(whole: string, position: nat, part: string) {
    position + |part| <= |whole| && whole[position..position + |part|] == part
  }

  predicate IsEnd(part: string, whole: string) {
    |part| <= |whole| && part == whole[|whole| - |part|..]
  }

  /** What the report says about a segment of the final context: it keeps the end of the text, as far as it is there. */
  predicate Reported(source: Source, segment: Segment, context: string, retainedStart: nat) {
    && source.kind == segment.kind && |source.included| == Reach(segment, retainedStart)
    && (source.included != "" ==> source.position + |source.included| + retainedStart == segment.end)
    && StandsAt(context, source.position, source.included) && IsEnd(source.included, segment.text)
    && (|source.included| < |segment.text| ==> source.position == 0)
    && (source.truncated <==> segment.truncated || |source.included| < segment.safeLength)
  }

  predicate Disjoint(sources: seq<Source>) {
    forall j, k :: 0 <= j < k < |sources| && sources[j].included != "" && sources[k].included != "" ==>
                     sources[j].position + |sources[j].included| <= sources[k].position
  }

  lemma CutReported(segment: Segment, whole: string, retainedStart: nat, start: nat, included: string, source: Source)
    requires Stands(whole, segment) && retainedStart <= |whole|
    requires start == if retainedStart > segment.start then retainedStart else segment.start
    requires included ==
             if segment.end > start then segment.text[start - segment.start..segment.end - segment.start] else ""
    requires source == Source(
      segment.kind, included, if segment.end > start then start - retainedStart else 0,
      segment.truncated || |included| < segment.safeLength)
    ensures Reported(source, segment, whole[retainedStart..], retainedStart)
    ensures included != "" ==> source.position + retainedStart >= segment.start
  {
    if segment.end > start {
      SliceOfEnd(whole, retainedStart, start, segment.end);
      SliceOfSlice(whole, segment.start, segment.end, start, segment.end);
    }
  }

  lemma SliceOfEnd(whole: string, from: nat, start: nat, end: nat)
    requires from <= start <= end <= |whole|
    ensures whole[from..][start - from..end - from] == whole[start..end]
  {
  }

  lemma SliceOfSlice(whole: string, from: nat, to: nat, start: nat, end: nat)
    requires from <= start <= end <= to <= |whole|
    ensures whole[from..to][start - from..end - from] == whole[start..end]
  {
    var middle := whole[from..to];
    assert forall i :: 0 <= i < |middle| ==> middle[i] == whole[from + i];
    var part := middle[start - from..end - from];
    assert forall i :: 0 <= i < |part| ==> part[i] == middle[start - from + i] == whole[start + i];
  }

  /** A part of the next segment lies behind the parts of those before it. */
  lemma DisjointNext(
    segments: seq<Segment>, whole: string, retainedStart: nat, sources: seq<Source>, source: Source)
    requires retainedStart <= |whole| && StandInOrder(whole, segments) && |sources| < |segments|
    requires forall k :: 0 <= k < |sources| ==>
               Reported(sources[k], segments[k], whole[retainedStart..], retainedStart)
    requires Disjoint(sources)
    requires source.included != "" ==> source.position + retainedStart >= segments[|sources|].start
    ensures Disjoint(sources + [source])
  {
    forall j | 0 <= j < |sources| && sources[j].included != "" && source.included != ""
      ensures sources[j].position + |sources[j].included| <= source.position
    {
      assert Reported(sources[j], segments[j], whole[retainedStart..], retainedStart);
    }
  }

  method Report(segments: seq<Segment>, whole: string, retainedStart: nat) returns (sources: seq<Source>)
    requires retainedStart <= |whole| && StandInOrder(whole, segments)
    ensures |sources| == |segments| && Disjoint(sources)
    ensures forall k :: 0 <= k < |sources| ==> Reported(sources[k], segments[k], whole[retainedStart..], retainedStart)
  {
    assert forall k :: 0 <= k < |segments| ==> Stands(whole, segments[k]);
    assert Disjoint([]);
    hide Reported, Disjoint, StandInOrder;
    sources := [];
    for i := 0 to |segments|
      invariant |sources| == i && Disjoint(sources)
      invariant forall k :: 0 <= k < i ==> Reported(sources[k], segments[k], whole[retainedStart..], retainedStart)
    {
      var segment := segments[i];
      assert Stands(whole, segment);
      var start := if retainedStart > segment.start then retainedStart else segment.start;
      var end := segment.end;
      var included := if end > start then segment.text[start - segment.start..end - segment.start] else "";
      var source := Source(
        segment.kind, included, if end > start then start - retainedStart else 0,
        segment.truncated || |included| < segment.safeLength);
      CutReported(segment, whole, retainedStart, start, included, source);
      DisjointNext(segments, whole, retainedStart, sources, source);
      sources := sources + [source];
    }
  }

  // ----- the whole context -----

  datatype Built = Built(context: string, baseContext: string, sources: seq<Source>)

  /**
   A source before it is cut: its redacted text, whether it was incomplete to begin with, whether the report
   measures it exactly, and how many characters follow it.
   */
  datatype Full = Full(kind: Kind, text: string, incomplete: bool, exact: bool, tail: nat)

  /** Every source in the order of the report. */
  function FullSources(
    history: seq<Message>, historyCount: nat, including: bool, context: string, attachments: seq<Attachment>,
    sanitize: string -> string
  ): seq<Full> {
    var selected := Selected(history, including);
    var parts := Sanitized(selected, sanitize);
    BaseSources(parts, historyCount > |selected|, context, Behind(attachments, sanitize), sanitize)
    + FileSources(attachments, sanitize)
  }

  /** The sources of the base, with the number of characters that files add behind it. */
  function BaseSources(
    parts: seq<string>, more: bool, context: string, files: nat, sanitize: string -> string): seq<Full>
  {
    var explicit := sanitize(context);
    var follows := files + if explicit != "" then |SEPARATOR| + |explicit| else 0;
    (if parts != [] then [Full(History, JoinAll(parts), more, !LateEmpty(parts), follows)] else [])
    + (if context != "" then [Full(Explicit, explicit, false, true, files)] else [])
  }

  function FileSources(attachments: seq<Attachment>, sanitize: string -> string): seq<Full> {
    seq(|attachments|, i requires 0 <= i < |attachments| =>
      Full(
        AttachedFile, sanitize(attachments[i].content), attachments[i].truncated, true,
        |Footer(attachments[i].truncated)| + Behind(attachments[i + 1..], sanitize)))
  }

  /**
   The report is true of the final context: every included part stands in it, the parts are disjoint,
   each is the end of its source, and a source that is not marked truncated appears in full.
   */
  predicate Truthful(built: Built, full: seq<Full>) {
    && |built.context| <= TOTAL_CHARACTERS && |built.sources| == |full| && Disjoint(built.sources)
    && (forall k :: 0 <= k < |full| ==> TruthfulSource(built.sources[k], full[k], built.context))
  }

  /**
   Of every source all is included that the context holds. The converse needs an exact measure: a conversation in
   which a late message was redacted to nothing is always marked truncated, even when all of it is there.
   */
  predicate TruthfulSource(source: Source, full: Full, context: string) {
    && source.kind == full.kind && |source.included| == Within(full, |context|)
    && (source.included != "" ==> source.position + |source.included| + full.tail == |context|)
    && StandsAt(context, source.position, source.included) && IsEnd(source.included, full.text)
    && (!source.truncated ==> source.included == full.text)
    && (full.exact ==> (source.truncated <==> full.incomplete || source.included != full.text))
    && (!full.exact ==> source.truncated)
  }

  /** How much of a source lies within the last characters of a text that it stands in. */
  function Within(full: Full, length: nat): nat {
    var before := if length > full.tail then length - full.tail else 0;
    if |full.text| < before then |full.text| else before
  }

  /**
   The segment is the end of the full text, measured at least in full. It stands before its tail, and if it is not
   the whole text it is at the start.
   */
  predicate Measures(segment: Segment, full: Full, total: nat) {
    && (segment.text != "" ==> segment.end + full.tail == total)
    && MeasuresText(segment, full.kind, full.text, full.incomplete, full.exact)
  }

  predicate MeasuresText(segment: Segment, kind: Kind, text: string, incomplete: bool, exact: bool) {
    && segment.kind == kind && segment.start + |segment.text| == segment.end
    && (segment.text == text || (segment.text != "" && segment.start == 0))
    && IsEnd(segment.text, text)
    && segment.safeLength >= |text| && (segment.safeLength == |text| <==> exact)
    && segment.truncated == incomplete
  }

  lemma ReportedIsTruthful(source: Source, segment: Segment, full: Full, context: string, retainedStart: nat)
    requires Reported(source, segment, context, retainedStart) && Measures(segment, full, retainedStart + |context|)
    ensures TruthfulSource(source, full, context)
  {
    hide Reach, Within, IsEnd, StandsAt;
    ReachWithin(segment, full, retainedStart, |context|);
    EndOfEnd(source.included, segment.text, full.text);
  }

  lemma ReachWithin(segment: Segment, full: Full, retainedStart: nat, length: nat)
    requires Measures(segment, full, retainedStart + length)
    ensures Reach(segment, retainedStart) == Within(full, length)
  {
  }

  lemma EndOfEnd(part: string, text: string, full: string)
    requires IsEnd(part, text) && IsEnd(text, full)
    ensures IsEnd(part, full) && |part| <= |text| <= |full|
    ensures part == full <==> |part| == |full|
  {
    assert forall i :: 0 <= i < |part| ==> part[i] == text[|text| - |part| + i] == full[|full| - |part| + i];
  }

  /** Files that are added behind a text move its end away from what stands in it. */
  lemma MeasuresBefore(segment: Segment, full: Full, total: nat, files: nat, longer: nat)
    requires Measures(segment, full, total) && (segment.text != "" ==> longer == total + files)
    ensures Measures(segment, full.(tail := full.tail + files), longer)
  {
    hide MeasuresText;
  }

  lemma FileMeasures(
    base: string, attachments: seq<Attachment>, k: nat, segment: Segment, dropped: nat, sanitize: string -> string)
    requires k < |attachments| && attachments[k].header != "" && FileSegment(segment, attachments[k], sanitize)
    requires segment.end + |Footer(attachments[k].truncated)| ==
             dropped + |WithFiles(base, attachments[..k + 1], sanitize)|
    ensures Measures(
              segment, FileSources(attachments, sanitize)[k], dropped + |WithFiles(base, attachments, sanitize)|)
  {
    assert attachments[..k + 1][..k] == attachments[..k];
    assert WithFiles(base, attachments[..k + 1], sanitize) != "";
    FilesBehind(base, attachments, k + 1, sanitize);
  }

  /** History and explicit context of a request, trimmed to the base window. */
  method PrepareBase(selected: seq<Message>, historyCount: nat, context: string, sanitize: string -> string)
    returns (fullBase: string, base: seq<Segment>)
    ensures fullBase == Join(Last(BASE_CHARACTERS, JoinAll(Sanitized(selected, sanitize))), sanitize(context))
    ensures StandInOrder(fullBase, base)
    ensures var full := BaseSources(Sanitized(selected, sanitize), historyCount > |selected|, context, 0, sanitize);
            |base| == |full| && forall k :: 0 <= k < |base| ==> Measures(base[k], full[k], |fullBase|)
  {
    hide JoinAll, Measures, StandInOrder, LateEmpty, SafeLength;
    ghost var parts := Sanitized(selected, sanitize);
    var window, safeLength := BuildHistory(selected, sanitize);
    NoHistory(parts);
    fullBase, base := BuildBase(window, safeLength, selected != [], historyCount > |selected|, context, sanitize);
    BaseMeasures(parts, historyCount > |selected|, context, sanitize);
  }

  function BaseOf(history: seq<Message>, including: bool, context: string, sanitize: string -> string): string {
    Last(
      BASE_CHARACTERS,
      Join(Last(BASE_CHARACTERS, JoinAll(Sanitized(Selected(history, including), sanitize))), sanitize(context)))
  }

  /** The whole text that the model is given. */
  function ContextOf(
    history: seq<Message>, including: bool, context: string, attachments: seq<Attachment>, sanitize: string -> string
  ): string {
    Last(TOTAL_CHARACTERS, WithFiles(BaseOf(history, including, context, sanitize), attachments, sanitize))
  }

  /** Redaction leaves the two attachments alike. */
  predicate LookAlike(a: Attachment, b: Attachment, sanitize: string -> string) {
    a.header == b.header && a.truncated == b.truncated && sanitize(a.content) == sanitize(b.content)
  }

  predicate ReadAlike(a: Message, b: Message, sanitize: string -> string) {
    sanitize(Rendered(a)) == sanitize(Rendered(b))
  }

  /** Before the last thirty-two messages anything may stand. */
  predicate Recent(history: seq<Message>, recent: seq<Message>) {
    recent == history || (|recent| == 32 <= |history| && history[|history| - 32..] == recent)
  }

  /**
   What redaction takes out leaves no trace: two requests that redaction makes alike, message by message and file by
   file, give the model the same text. Messages that are not among the last thirty-two do not count at all.
   */
  lemma RedactedLeavesNoTrace(
    left: seq<Message>, right: seq<Message>, recent: seq<Message>, likewise: seq<Message>, including: bool,
    context: string, other: string, files: seq<Attachment>, others: seq<Attachment>, sanitize: string -> string)
    requires including ==> Recent(left, recent) && Recent(right, likewise) && |recent| == |likewise|
    requires including ==> forall k :: 0 <= k < |recent| ==> ReadAlike(recent[k], likewise[k], sanitize)
    requires sanitize(context) == sanitize(other)
    requires |files| == |others| && forall k :: 0 <= k < |files| ==> LookAlike(files[k], others[k], sanitize)
    ensures ContextOf(left, including, context, files, sanitize) == ContextOf(right, including, other, others, sanitize)
  {
    hide LookAlike, JoinAll, Last, Join, WithFiles;
    assert Sanitized(Selected(left, including), sanitize) == Sanitized(Selected(right, including), sanitize) by {
      if including {
        SelectedRecent(left, recent);
        SelectedRecent(right, likewise);
        SameSelected(recent, likewise, sanitize);
      }
    }
    SameFiles(BaseOf(left, including, context, sanitize), files, others, sanitize);
  }

  lemma SelectedRecent(history: seq<Message>, recent: seq<Message>)
    requires Recent(history, recent)
    ensures Selected(history, true) == Selected(recent, true)
  {
  }

  lemma SameSelected(recent: seq<Message>, likewise: seq<Message>, sanitize: string -> string)
    requires |recent| == |likewise| && forall k :: 0 <= k < |recent| ==> ReadAlike(recent[k], likewise[k], sanitize)
    ensures Sanitized(Selected(recent, true), sanitize) == Sanitized(Selected(likewise, true), sanitize)
  {
    var a, b := Selected(recent, true), Selected(likewise, true);
    forall i | 0 <= i < |a| ensures sanitize(Rendered(a[i])) == sanitize(Rendered(b[i])) {
      assert ReadAlike(recent[|recent| - |a| + i], likewise[|recent| - |a| + i], sanitize);
    }
  }

  lemma {:induction false} SameFiles(
    base: string, files: seq<Attachment>, others: seq<Attachment>, sanitize: string -> string)
    requires |files| == |others| && forall k :: 0 <= k < |files| ==> LookAlike(files[k], others[k], sanitize)
    ensures WithFiles(base, files, sanitize) == WithFiles(base, others, sanitize)
  {
    if files != [] {
      SameFiles(base, files[..|files| - 1], others[..|others| - 1], sanitize);
      assert LookAlike(files[|files| - 1], others[|others| - 1], sanitize);
    }
  }

  /** The roles in the rendered conversation can be told apart, and nothing of a message is lost. */
  lemma RenderedTells(a: Message, b: Message)
    requires Rendered(a) == Rendered(b)
    ensures a == b
  {
    assert Rendered(a)[0] == if a.fromUser then 'U' else 'A';
    assert Rendered(b)[0] == if b.fromUser then 'U' else 'A';
    var role := if a.fromUser then "User: " else "Assistant: ";
    assert a.content == Rendered(a)[|role|..] == Rendered(b)[|role|..] == b.content;
  }

  method BuildAiModelContext(
    history: seq<Message>, historyCount: nat, including: bool, context: string, attachments: seq<Attachment>,
    sanitize: string -> string
  ) returns (built: Built)
    requires forall k :: 0 <= k < |attachments| ==> attachments[k].header != ""
    ensures Truthful(built, FullSources(history, historyCount, including, context, attachments, sanitize))
    ensures built.baseContext == BaseOf(history, including, context, sanitize)
    ensures built.context == ContextOf(history, including, context, attachments, sanitize)
  {
    hide JoinAll, Measures, Reported, TruthfulSource, FileSegment, StandInOrder, LateEmpty, Disjoint, Selected, Join,
      Sanitized, WithFiles;
    var selected := Selected(history, including);
    var fullBase, base := PrepareBase(selected, historyCount, context, sanitize);
    var baseContext := Last(BASE_CHARACTERS, fullBase);
    var baseStart := |fullBase| - |baseContext|;
    assert fullBase[..baseStart] + baseContext == fullBase;
    var combined, segments := Attach(fullBase[..baseStart], baseContext, base, attachments, sanitize);
    var final := Last(TOTAL_CHARACTERS, combined);
    var retainedStart := baseStart + |combined| - |final|;
    assert (fullBase[..baseStart] + combined)[retainedStart..] == final;
    var sources := Report(segments, fullBase[..baseStart] + combined, retainedStart);
    built := Built(final, baseContext, sources);
    AllTruthful(
      history, historyCount, including, context, attachments, sanitize, base, segments, sources, baseStart,
      baseContext, final);
  }

  lemma AllTruthful(
    history: seq<Message>, historyCount: nat, including: bool, context: string, attachments: seq<Attachment>,
    sanitize: string -> string, base: seq<Segment>, segments: seq<Segment>, sources: seq<Source>, dropped: nat,
    baseContext: string, final: string)
    requires var selected := Selected(history, including);
             var full := BaseSources(Sanitized(selected, sanitize), historyCount > |selected|, context, 0, sanitize);
             |base| == |full|
             && forall k :: 0 <= k < |base| ==> Measures(base[k], full[k], dropped + |baseContext|)
    requires baseContext == "" ==> dropped == 0
    requires forall k :: 0 <= k < |attachments| ==> attachments[k].header != ""
    requires |segments| == |base| + |attachments| == |sources| && base <= segments
    requires forall k :: 0 <= k < |attachments| ==>
               && FileSegment(segments[|base| + k], attachments[k], sanitize)
               && segments[|base| + k].end + |Footer(attachments[k].truncated)| ==
                  dropped + |WithFiles(baseContext, attachments[..k + 1], sanitize)|
    requires |final| <= dropped + |WithFiles(baseContext, attachments, sanitize)|
    requires forall k :: 0 <= k < |sources| ==>
               Reported(sources[k], segments[k], final,
                        dropped + |WithFiles(baseContext, attachments, sanitize)| - |final|)
    ensures var full := FullSources(history, historyCount, including, context, attachments, sanitize);
            |full| == |sources| && forall k :: 0 <= k < |full| ==> TruthfulSource(sources[k], full[k], final)
  {
    hide Measures, Reported, TruthfulSource, FileSegment, BaseSources, FullSources, FileSources, WithFiles, Selected,
      Sanitized;
    var selected := Selected(history, including);
    var baseFull := BaseSources(Sanitized(selected, sanitize), historyCount > |selected|, context, 0, sanitize);
    var full := FullSources(history, historyCount, including, context, attachments, sanitize);
    BaseBefore(history, historyCount, including, context, attachments, sanitize);
    SegmentsMeasure(base, segments, baseFull, full, dropped, baseContext, attachments, sanitize);
    forall k | 0 <= k < |full| ensures TruthfulSource(sources[k], full[k], final) {
      ReportedIsTruthful(
        sources[k], segments[k], full[k], final,
        dropped + |WithFiles(baseContext, attachments, sanitize)| - |final|);
    }
  }

  /** The sources are those of the base, with the files behind them, and the files. */
  lemma BaseBefore(
    history: seq<Message>, historyCount: nat, including: bool, context: string, attachments: seq<Attachment>,
    sanitize: string -> string)
    ensures var selected := Selected(history, including);
            var base := BaseSources(Sanitized(selected, sanitize), historyCount > |selected|, context, 0, sanitize);
            var full := FullSources(history, historyCount, including, context, attachments, sanitize);
            && |full| == |base| + |attachments| && full[|base|..] == FileSources(attachments, sanitize)
            && forall k :: 0 <= k < |base| ==>
                 full[k] == base[k].(tail := base[k].tail + Behind(attachments, sanitize))
  {
  }

  /** The segments measure the sources one by one. */
  lemma SegmentsMeasure(
    base: seq<Segment>, segments: seq<Segment>, baseFull: seq<Full>, full: seq<Full>, dropped: nat,
    baseContext: string, attachments: seq<Attachment>, sanitize: string -> string)
    requires |base| == |baseFull|
    requires forall k :: 0 <= k < |base| ==> Measures(base[k], baseFull[k], dropped + |baseContext|)
    requires baseContext == "" ==> dropped == 0
    requires forall k :: 0 <= k < |attachments| ==> attachments[k].header != ""
    requires |segments| == |base| + |attachments| && base <= segments
    requires forall k :: 0 <= k < |attachments| ==>
               && FileSegment(segments[|base| + k], attachments[k], sanitize)
               && segments[|base| + k].end + |Footer(attachments[k].truncated)| ==
                  dropped + |WithFiles(baseContext, attachments[..k + 1], sanitize)|
    requires |full| == |base| + |attachments| && full[|base|..] == FileSources(attachments, sanitize)
    requires forall k :: 0 <= k < |base| ==>
               full[k] == baseFull[k].(tail := baseFull[k].tail + Behind(attachments, sanitize))
    ensures forall k :: 0 <= k < |full| ==>
              Measures(segments[k], full[k], dropped + |WithFiles(baseContext, attachments, sanitize)|)
  {
    hide WithFiles, Behind, FileSegment, Measures, FileSources, Footer;
    var longer := dropped + |WithFiles(baseContext, attachments, sanitize)|;
    forall k | 0 <= k < |full| ensures Measures(segments[k], full[k], longer) {
      if k < |base| {
        assert segments[k] == base[k];
        BaseStays(base[k], baseFull[k], dropped, baseContext, attachments, sanitize);
      } else {
        var i := k - |base|;
        assert full[k] == full[|base|..][i] && segments[k] == segments[|base| + i];
        FileMeasures(baseContext, attachments, i, segments[k], dropped, sanitize);
      }
    }
  }

  lemma BaseStays(
    segment: Segment, full: Full, dropped: nat, baseContext: string, attachments: seq<Attachment>,
    sanitize: string -> string)
    requires Measures(segment, full, dropped + |baseContext|) && (baseContext == "" ==> dropped == 0)
    ensures Measures(
              segment, full.(tail := full.tail + Behind(attachments, sanitize)),
              dropped + |WithFiles(baseContext, attachments, sanitize)|)
  {
    if baseContext != "" {
      assert attachments[..0] == [] && attachments[0..] == attachments;
      FilesBehind(baseContext, attachments, 0, sanitize);
    }
    MeasuresBefore(
      segment, full, dropped + |baseContext|, Behind(attachments, sanitize),
      dropped + |WithFiles(baseContext, attachments, sanitize)|);
  }

  lemma NoHistory(parts: seq<string>)
    ensures parts == [] ==> JoinAll(parts) == ""
  {
  }

  lemma BaseMeasures(parts: seq<string>, more: bool, context: string, sanitize: string -> string)
    ensures var window, explicit := Last(BASE_CHARACTERS, JoinAll(parts)), sanitize(context);
            var total := |Join(window, explicit)|;
            && Measures(
                 Segment(History, window, SafeLength(parts), 0, |window|, more),
                 Full(History, JoinAll(parts), more, !LateEmpty(parts),
                      if explicit != "" then |SEPARATOR| + |explicit| else 0), total)
            && Measures(
                 Segment(Explicit, explicit, |explicit|, total - |explicit|, total, false),
                 Full(Explicit, explicit, false, true, 0), total)
  {
    SafeLengthCounts(parts);
  }
}
