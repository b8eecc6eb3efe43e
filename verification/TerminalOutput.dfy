/**
 The output of a Python terminal: streamed in chunks as it is written, truncated per command
 and per session, and checked again by the host that receives it.
 */
module TerminalOutput {
  import opened CodeUnits
  import opened Numbers
  import opened Wrappers

  const MAX_OUTPUT_CHARS := 256 * 1024
  const MAX_OUTPUT_CHUNK_CHARS := 64 * 1024
  const MAX_SESSION_OUTPUT_CHARS := 8 * 1024 * 1024

  /** "\n[Output truncated]" */
  const TRUNCATION_MARKER: Text :=
    [10, 91, 79, 117, 116, 112, 117, 116, 32, 116, 114, 117, 110, 99, 97, 116, 101, 100, 93]

  datatype OutputMessage = OutputMessage(commandId: Text, chunk: Text)

  // ----- what a whole output is cut to

  /** The text if it fits, else its longest prefix that leaves room for the marker, if the marker fits at all. */
  function Truncated(text: Text, limit: nat): (r: Text)
    ensures |r| <= limit
  {
    if |text| <= limit then text
    else if limit >= |TRUNCATION_MARKER| then text[..limit - |TRUNCATION_MARKER|] + TRUNCATION_MARKER
    else []
  }

  function ContentLimit(limit: nat): nat {
    if limit >= |TRUNCATION_MARKER| then limit - |TRUNCATION_MARKER| else 0
  }

  function Flat(texts: seq<Text>): Text {
    if texts == [] then [] else Flat(texts[..|texts| - 1]) + texts[|texts| - 1]
  }

  function Chunks(messages: seq<OutputMessage>): seq<Text> {
    seq(|messages|, i requires 0 <= i < |messages| => messages[i].chunk)
  }

  /** Chunks a host takes: for this command, not empty, and not too long. */
  predicate WellSized(messages: seq<OutputMessage>, commandId: Text) {
    forall i | 0 <= i < |messages| :: messages[i].commandId == commandId && 1 <= |messages[i].chunk| <= MAX_OUTPUT_CHUNK_CHARS
  }

  // ----- holding text back

  /** What was written is what was sent and what is held back; only text that survives a truncation is sent. */
  predicate Held(sent: Text, written: Text, pending: Text, truncated: bool, limit: nat) {
    && |sent| <= limit
    && if truncated then |written| > limit && sent == Truncated(written, limit)
       else |written| <= limit && written == sent + pending && |sent| == Min(|written|, ContentLimit(limit))
  }

  function Accepted(sent: nat, pending: Text, limit: nat): (n: nat)
    ensures n <= |pending|
  {
    if ContentLimit(limit) > sent then Min(|pending|, ContentLimit(limit) - sent) else 0
  }

  lemma HoldMore(sent: Text, written: Text, pending: Text, limit: nat, more: Text)
    requires Held(sent, written, pending, false, limit) && |written| + |more| <= limit
    ensures var all := pending + more; var n := Accepted(|sent|, all, limit);
      Held(sent + all[..n], written + more, all[n..], false, limit)
  {
  }

  /** The text with the marker after it, if the marker still fits. */
  function WithMarker(text: Text, sent: nat, limit: nat): Text {
    if sent + |text| + |TRUNCATION_MARKER| <= limit then text + TRUNCATION_MARKER else text
  }

  lemma HoldCut(sent: Text, written: Text, pending: Text, limit: nat, more: Text)
    requires Held(sent, written, pending, false, limit) && |written| + |more| > limit
    ensures var all := pending + more;
      Held(sent + WithMarker(all[..Accepted(|sent|, all, limit)], |sent|, limit), written + more, [], true, limit)
  {
    var all := pending + more;
    var cut := all[..Accepted(|sent|, all, limit)];
    assert sent + (cut + TRUNCATION_MARKER) == sent + cut + TRUNCATION_MARKER;
  }

  lemma HoldNothing(sent: Text, written: Text, pending: Text, truncated: bool, limit: nat, more: Text)
    requires Held(sent, written, pending, truncated, limit) && (truncated || more == [])
    ensures Held(sent, written + more, pending, truncated, limit)
  {
  }

  // ----- whole sessions

  datatype Command = Command(id: Text, pieces: seq<Text>)

  function Written(commands: seq<Command>): (written: seq<Text>)
    ensures |written| == |commands|
  {
    seq(|commands|, i requires 0 <= i < |commands| => Flat(commands[i].pieces))
  }

  function LimitAfter(used: nat): nat
    requires used <= MAX_SESSION_OUTPUT_CHARS
  {
    Min(MAX_OUTPUT_CHARS, MAX_SESSION_OUTPUT_CHARS - used)
  }

  /** The outputs of the commands of a session: each is cut to what those before it left of the session's limit. */
  function SessionOutputs(written: seq<Text>, used: nat): (outputs: seq<Text>)
    requires used <= MAX_SESSION_OUTPUT_CHARS
    ensures |outputs| == |written|
  {
    if written == [] then []
    else
      var output := Truncated(written[0], LimitAfter(used));
      [output] + SessionOutputs(written[1..], used + |output|)
  }

  function Total(texts: seq<Text>): nat {
    if texts == [] then 0 else |texts[0]| + Total(texts[1..])
  }

  /** However many commands run and whatever they write, a session sends at most its limit. */
  lemma {:induction false} SessionStaysWithinLimit(written: seq<Text>, used: nat)
    requires used <= MAX_SESSION_OUTPUT_CHARS
    ensures used + Total(SessionOutputs(written, used)) <= MAX_SESSION_OUTPUT_CHARS
    ensures forall i | 0 <= i < |written| :: |SessionOutputs(written, used)[i]| <= MAX_OUTPUT_CHARS
    decreases |written|
  {
    if written != [] {
      SessionStaysWithinLimit(written[1..], used + |Truncated(written[0], LimitAfter(used))|);
    }
  }

  /** Within 256 Ki units a command, and 8 Mi units a session, nothing is cut. */
  lemma {:induction false} ShortOutputsAreWhole(written: seq<Text>, used: nat)
    requires (forall i | 0 <= i < |written| :: |written[i]| <= 262_144) && used + Total(written) <= 8_388_608
    ensures SessionOutputs(written, used) == written
    decreases |written|
  {
    if written != [] {
      ShortOutputsAreWhole(written[1..], used + |written[0]|);
    }
  }

  /** What is cut fills its limit to the last unit: a prefix, a line break and the words in brackets. */
  lemma CutOutputIsFull(text: Text, limit: nat, words: string)
    requires |text| > limit && words == "\n[Output truncated]"
    ensures limit >= 19 ==> |Truncated(text, limit)| == limit && Truncated(text, limit)[..limit - 19] == text[..limit - 19]
    ensures limit >= 19 ==> forall i | 0 <= i < 19 :: Truncated(text, limit)[limit - 19 + i] == words[i] as int
    ensures limit < 19 ==> Truncated(text, limit) == []
  {
    assert |words| == 19 && |TRUNCATION_MARKER| == 19;
    assert forall i | 0 <= i < 19 :: TRUNCATION_MARKER[i] == words[i] as int;
  }

  function AllMessages(groups: seq<seq<OutputMessage>>): seq<OutputMessage> {
    if groups == [] then [] else groups[0] + AllMessages(groups[1..])
  }

  function Outputs(groups: seq<seq<OutputMessage>>): (outputs: seq<Text>)
    ensures |outputs| == |groups|
  {
    seq(|groups|, i requires 0 <= i < |groups| => Flat(Chunks(groups[i])))
  }

  /** The messages of each command are addressed and sized as the host demands, and carry its output. */
  ghost predicate CarriesSession(groups: seq<seq<OutputMessage>>, commands: seq<Command>, used: nat)
    requires used <= MAX_SESSION_OUTPUT_CHARS
  {
    && |groups| == |commands| && Outputs(groups) == SessionOutputs(Written(commands), used)
    && forall i | 0 <= i < |commands| :: WellSized(groups[i], commands[i].id)
  }

  lemma FirstGroup(groups: seq<seq<OutputMessage>>, group: seq<OutputMessage>)
    ensures Outputs([group] + groups) == [Flat(Chunks(group))] + Outputs(groups)
    ensures AllMessages([group] + groups) == group + AllMessages(groups)
  {
    assert ([group] + groups)[1..] == groups;
  }

  lemma FirstOutput(commands: seq<Command>, used: nat, output: Text, later: seq<Text>)
    requires commands != [] && used <= MAX_SESSION_OUTPUT_CHARS && output == Truncated(Flat(commands[0].pieces), LimitAfter(used))
    requires later == SessionOutputs(Written(commands[1..]), used + |output|)
    ensures SessionOutputs(Written(commands), used) == [output] + later && Total([output] + later) == |output| + Total(later)
  {
    assert Written(commands)[1..] == Written(commands[1..]);
    assert ([output] + later)[1..] == later;
  }

  lemma FirstCommand(commands: seq<Command>, used: nat, group: seq<OutputMessage>, later: seq<seq<OutputMessage>>)
    requires commands != [] && used <= MAX_SESSION_OUTPUT_CHARS && WellSized(group, commands[0].id)
    requires Flat(Chunks(group)) == Truncated(Flat(commands[0].pieces), LimitAfter(used))
    requires CarriesSession(later, commands[1..], used + |Flat(Chunks(group))|)
    ensures var groups := [group] + later;
      && CarriesSession(groups, commands, used)
      && (forall first: seq<OutputMessage> :: first + group + AllMessages(later) == first + AllMessages(groups))
      && Total(Outputs(groups)) == |Flat(Chunks(group))| + Total(Outputs(later))
  {
    FirstGroup(later, group);
    FirstOutput(commands, used, Flat(Chunks(group)), Outputs(later));
    forall first: seq<OutputMessage>
      ensures first + group + AllMessages(later) == first + AllMessages([group] + later)
    {
      assert first + group + AllMessages(later) == first + (group + AllMessages(later));
    }
  }

  // ----- the worker

  class TerminalWorker {
    var sessionOutputChars: nat
    var active: bool
    var commandId: Text
    var outputChars: nat
    var outputLimit: nat
    var pendingOutput: Text
    var truncated: bool
    var messages: seq<OutputMessage>
    /** Everything the running command has written. */
    ghost var written: Text
    /** The number of messages sent before the running command. */
    ghost var sentBefore: nat

    /** What the running command has sent so far. */
    ghost function Sent(): Text
      reads this
      requires sentBefore <= |messages|
    {
      Flat(Chunks(messages[sentBefore..]))
    }

    ghost predicate SessionWithinLimit()
      reads this
    {
      sessionOutputChars <= MAX_SESSION_OUTPUT_CHARS && sentBefore <= |messages|
    }

    ghost predicate Streaming()
      reads this
      requires sentBefore <= |messages|
    {
      && outputLimit <= MAX_OUTPUT_CHARS && sessionOutputChars - outputChars + outputLimit <= MAX_SESSION_OUTPUT_CHARS
      && outputChars == |Sent()| && outputChars <= sessionOutputChars
      && WellSized(messages[sentBefore..], commandId)
      && Held(Sent(), written, pendingOutput, truncated, outputLimit)
    }

    ghost predicate Valid()
      reads this
    {
      SessionWithinLimit() && (active ==> Streaming())
    }

    constructor ()
      ensures Valid() && !active && sessionOutputChars == 0 && messages == []
    {
      sessionOutputChars, active, outputChars, outputLimit, truncated := 0, false, 0, 0, false;
      commandId, pendingOutput, messages, written, sentBefore := [], [], [], [], 0;
    }

    method BeginCommand(commandId: Text)
      requires Valid() && !active
      modifies this
      ensures Valid() && active && this.commandId == commandId && written == []
      ensures messages == old(messages) && sentBefore == |messages| && sessionOutputChars == old(sessionOutputChars)
      ensures outputLimit == Min(MAX_OUTPUT_CHARS, MAX_SESSION_OUTPUT_CHARS - sessionOutputChars)
    {
      active, this.commandId, outputChars, pendingOutput, truncated := true, commandId, 0, [], false;
      outputLimit := Min(MAX_OUTPUT_CHARS, MAX_SESSION_OUTPUT_CHARS - sessionOutputChars);
      written, sentBefore := [], |messages|;
      assert messages[sentBefore..] == [];
    }

    method SendMessage(chunk: Text)
      requires sentBefore <= |messages| && WellSized(messages[sentBefore..], commandId) && 1 <= |chunk| <= MAX_OUTPUT_CHUNK_CHARS
      modifies this`messages
      ensures sentBefore <= |messages| && WellSized(messages[sentBefore..], commandId)
      ensures old(messages) <= messages && Sent() == old(Sent()) + chunk
    {
      var message := OutputMessage(commandId, chunk);
      ghost var before := messages[sentBefore..];
      SentMore(before, message);
      messages := messages + [message];
      assert messages[sentBefore..] == before + [message];
    }

    method SendOutputChunk(value: Text)
      requires sentBefore <= |messages| && WellSized(messages[sentBefore..], commandId)
      modifies this`messages
      ensures sentBefore <= |messages| && WellSized(messages[sentBefore..], commandId)
      ensures old(messages) <= messages && Sent() == old(Sent()) + value
    {
      var cursor := 0;
      assert value[..0] == [];
      while cursor < |value|
        invariant 0 <= cursor <= |value|
        invariant sentBefore <= |messages| && WellSized(messages[sentBefore..], commandId)
        invariant old(messages) <= messages && Sent() == old(Sent()) + value[..cursor]
      {
        var chunk := value[cursor..Min(|value|, cursor + MAX_OUTPUT_CHUNK_CHARS)];
        assert value[..cursor] + chunk == value[..cursor + |chunk|];
        cursor := cursor + |chunk|;
        SendMessage(chunk);
      }
      assert value[..cursor] == value;
    }

    method StreamAcceptedOutput(value: Text)
      requires active && sentBefore <= |messages| && WellSized(messages[sentBefore..], commandId)
      modifies this`messages, this`outputChars, this`sessionOutputChars
      ensures sentBefore <= |messages| && WellSized(messages[sentBefore..], commandId)
      ensures old(messages) <= messages && Sent() == old(Sent()) + value
      ensures outputChars == old(outputChars) + |value| && sessionOutputChars == old(sessionOutputChars) + |value|
    {
      if |value| == 0 {
        return;
      }
      outputChars := outputChars + |value|;
      sessionOutputChars := sessionOutputChars + |value|;
      SendOutputChunk(value);
    }

    /** Whatever is written, in whatever pieces, counts as one text. */
    method AppendOutput(text: Text)
      requires Valid() && active
      modifies this`messages, this`outputChars, this`sessionOutputChars, this`pendingOutput, this`truncated, this`written
      ensures Valid() && old(messages) <= messages && written == old(written) + text
      ensures sessionOutputChars - outputChars == old(sessionOutputChars - outputChars)
    {
      ghost var all, sent := written + text, Sent();
      if truncated || |text| == 0 {
        HoldNothing(sent, written, pendingOutput, truncated, outputLimit, text);
        written := all;
        return;
      }
      var pending := pendingOutput + text;
      if outputChars + |pendingOutput| + |text| > outputLimit {
        CutOutput(text, pending);
      } else {
        HoldMore(sent, written, pendingOutput, outputLimit, text);
        var accepted := Accepted(outputChars, pending, outputLimit);
        StreamAcceptedOutput(pending[..accepted]);
        pendingOutput, written := pending[accepted..], all;
      }
    }

    /** What still fits is sent, then the marker if it fits. */
    method SendCut(accepted: Text) returns (ghost more: Text)
      requires active && sentBefore <= |messages| && WellSized(messages[sentBefore..], commandId)
      modifies this`messages, this`outputChars, this`sessionOutputChars
      ensures sentBefore <= |messages| && WellSized(messages[sentBefore..], commandId)
      ensures old(messages) <= messages
      ensures more == WithMarker(accepted, old(outputChars), outputLimit) && Sent() == old(Sent()) + more
      ensures outputChars == old(outputChars) + |more| && sessionOutputChars == old(sessionOutputChars) + |more|
    {
      more := WithMarker(accepted, outputChars, outputLimit);
      StreamAcceptedOutput(accepted);
      if outputChars + |TRUNCATION_MARKER| <= outputLimit {
        ghost var sent := Sent();
        StreamAcceptedOutput(TRUNCATION_MARKER);
        assert Sent() == sent + TRUNCATION_MARKER;
      }
    }

    /** The output limit is passed: nothing more is sent after this. */
    method CutOutput(ghost text: Text, pending: Text)
      requires Valid() && active && !truncated && |written| + |text| > outputLimit && pending == pendingOutput + text
      modifies this`messages, this`outputChars, this`sessionOutputChars, this`pendingOutput, this`truncated, this`written
      ensures Valid() && old(messages) <= messages && written == old(written) + text
      ensures sessionOutputChars - outputChars == old(sessionOutputChars - outputChars)
    {
      ghost var sent := Sent();
      HoldCut(sent, written, pendingOutput, outputLimit, text);
      ghost var more := SendCut(pending[..Accepted(outputChars, pending, outputLimit)]);
      pendingOutput, truncated, written := [], true, written + text;
      assert Sent() == sent + more;
    }

    /** The text sent for a command is the truncation of the whole text written. */
    method FinishOutput()
      requires Valid() && active
      modifies this`messages, this`outputChars, this`sessionOutputChars, this`pendingOutput, this`active
      ensures Valid() && !active && old(messages) <= messages && WellSized(messages[sentBefore..], commandId)
      ensures Sent() == Truncated(written, outputLimit)
      ensures sessionOutputChars == old(sessionOutputChars - outputChars) + |Sent()|
    {
      if !truncated {
        StreamAcceptedOutput(pendingOutput);
        pendingOutput := [];
      }
      active := false;
    }

    /** One command that writes its output in the given pieces: its messages carry the truncation of the joined pieces. */
    method RunCommand(commandId: Text, pieces: seq<Text>)
      requires Valid() && !active
      modifies this
      ensures Valid() && !active && old(messages) <= messages
      ensures var limit := LimitAfter(old(sessionOutputChars));
        var sent := messages[|old(messages)|..];
        && WellSized(sent, commandId) && Flat(Chunks(sent)) == Truncated(Flat(pieces), limit)
        && sessionOutputChars == old(sessionOutputChars) + |Truncated(Flat(pieces), limit)|
    {
      BeginCommand(commandId);
      ghost var before := sessionOutputChars;
      for index := 0 to |pieces|
        invariant Valid() && active && this.commandId == commandId && written == Flat(pieces[..index])
        invariant outputLimit == Min(MAX_OUTPUT_CHARS, MAX_SESSION_OUTPUT_CHARS - before)
        invariant old(messages) <= messages && sentBefore == |old(messages)| && sessionOutputChars == before + outputChars
      {
        assert pieces[..index + 1][..index] == pieces[..index];
        AppendOutput(pieces[index]);
      }
      assert pieces[..|pieces|] == pieces;
      FinishOutput();
    }

    method RunFirst(command: Command) returns (ghost group: seq<OutputMessage>)
      requires Valid() && !active
      modifies this
      ensures Valid() && !active && messages == old(messages) + group && WellSized(group, command.id)
      ensures Flat(Chunks(group)) == Truncated(Flat(command.pieces), LimitAfter(old(sessionOutputChars)))
      ensures sessionOutputChars == old(sessionOutputChars) + |Flat(Chunks(group))|
    {
      ghost var before := messages;
      RunCommand(command.id, command.pieces);
      group := messages[|before|..];
    }

    /** A session: the messages of each command carry its output, cut to what the commands before it left of the session's limit. */
    method RunSession(commands: seq<Command>) returns (ghost groups: seq<seq<OutputMessage>>)
      requires Valid() && !active
      modifies this
      ensures Valid() && !active && messages == old(messages) + AllMessages(groups)
      ensures CarriesSession(groups, commands, old(sessionOutputChars))
      ensures sessionOutputChars == old(sessionOutputChars) + Total(Outputs(groups)) <= MAX_SESSION_OUTPUT_CHARS
      decreases |commands|
    {
      groups := [];
      if commands != [] {
        ghost var used := sessionOutputChars;
        ghost var group := RunFirst(commands[0]);
        ghost var later := RunSession(commands[1..]);
        groups := [group] + later;
        FirstCommand(commands, used, group, later);
      }
    }
  }

  lemma SentMore(messages: seq<OutputMessage>, message: OutputMessage)
    ensures Flat(Chunks(messages + [message])) == Flat(Chunks(messages)) + message.chunk
  {
    var chunks := Chunks(messages + [message]);
    assert chunks[..|chunks| - 1] == Chunks(messages);
  }

  // ----- the host

  datatype HostCommand = HostCommand(commandId: Text, output: Text, outputChars: nat)

  /** The host's own check of an output message; a message that fails it ends the session. */
  function Receive(host: HostCommand, message: OutputMessage): Option<HostCommand> {
    if message.commandId != host.commandId || |message.chunk| < 1 || |message.chunk| > MAX_OUTPUT_CHUNK_CHARS
       || host.outputChars + |message.chunk| > MAX_OUTPUT_CHARS
    then None
    else Some(HostCommand(host.commandId, host.output + message.chunk, host.outputChars + |message.chunk|))
  }

  function ReceiveAll(host: HostCommand, messages: seq<OutputMessage>): Option<HostCommand> {
    if messages == [] then Some(host)
    else
      var last := |messages| - 1;
      var before := ReceiveAll(host, messages[..last]);
      if before.None? then None else Receive(before.value, messages[last])
  }

  /** The worker's messages for a command never trip the host's checks, and the host assembles exactly the truncated output. */
  lemma {:induction false} HostAcceptsOutput(commandId: Text, messages: seq<OutputMessage>, text: Text, limit: nat)
    requires WellSized(messages, commandId) && Flat(Chunks(messages)) == Truncated(text, limit) && limit <= MAX_OUTPUT_CHARS
    ensures ReceiveAll(HostCommand(commandId, [], 0), messages)
         == Some(HostCommand(commandId, Truncated(text, limit), |Truncated(text, limit)|))
  {
    HostAssembles(commandId, messages);
  }

  lemma {:induction false} HostAssembles(commandId: Text, messages: seq<OutputMessage>)
    requires WellSized(messages, commandId) && |Flat(Chunks(messages))| <= MAX_OUTPUT_CHARS
    ensures var all := Flat(Chunks(messages));
      ReceiveAll(HostCommand(commandId, [], 0), messages) == Some(HostCommand(commandId, all, |all|))
    decreases |messages|
  {
    if messages != [] {
      var last := |messages| - 1;
      assert messages == messages[..last] + [messages[last]];
      SentMore(messages[..last], messages[last]);
      HostAssembles(commandId, messages[..last]);
    }
  }

  // ----- the one-shot runner, which truncates as it goes

  /** U+005B U+0412 ... U+005D, the marker of the one-shot runner. */
  const RUNNER_MARKER: Text :=
    [0x5b, 0x412, 0x44b, 0x432, 0x43e, 0x434, 0x20, 0x441, 0x43e, 0x43a, 0x440, 0x430, 0x449, 0x451, 0x43d, 0x5d]

  /** What a reader would expect: all of it, or the first characters and the marker on a new line. */
  function RunnerCut(text: Text): Text {
    if |text| <= MAX_OUTPUT_CHARS then text else text[..MAX_OUTPUT_CHARS] + [10] + RUNNER_MARKER
  }

  /** Some piece ends exactly at the limit, and something comes after it. */
  ghost predicate CutsAtLimit(pieces: seq<Text>) {
    |Flat(pieces)| > MAX_OUTPUT_CHARS && exists i | 0 <= i <= |pieces| :: |Flat(pieces[..i])| == MAX_OUTPUT_CHARS
  }

  class RunnerOutput {
    var output: Text
    var outputLength: nat
    var truncated: bool
    /** The pieces written so far. */
    ghost var pieces: seq<Text>

    ghost predicate Valid()
      reads this
    {
      && outputLength <= MAX_OUTPUT_CHARS
      && RunnerState(pieces, output, outputLength, truncated)
    }

    constructor ()
      ensures Valid() && pieces == []
    {
      output, outputLength, truncated, pieces := [], 0, false, [];
      PrefixIsShorter([], 0);
    }

    method Append(text: Text)
      requires Valid()
      modifies this
      ensures Valid() && pieces == old(pieces) + [text]
    {
      ghost var before := pieces;
      pieces := pieces + [text];
      RunnerStep(before, text);
      if truncated || |text| == 0 {
        return;
      }
      var remaining := MAX_OUTPUT_CHARS - outputLength;
      if remaining == 0 {
        truncated := true;
        output := output + RUNNER_MARKER;
      } else if |text| > remaining {
        output := output + (text[..remaining] + [10] + RUNNER_MARKER);
        outputLength, truncated := MAX_OUTPUT_CHARS, true;
      } else {
        output := output + text;
        outputLength := outputLength + |text|;
      }
    }
  }

  /** The runner's output: as expected, except that the new line before the marker is lost when a piece ends exactly at the limit. */
  ghost predicate RunnerState(pieces: seq<Text>, output: Text, outputLength: nat, truncated: bool) {
    var all := Flat(pieces);
    && truncated == (|all| > MAX_OUTPUT_CHARS)
    && outputLength == Min(|all|, MAX_OUTPUT_CHARS)
    && output == if CutsAtLimit(pieces) then all[..MAX_OUTPUT_CHARS] + RUNNER_MARKER else RunnerCut(all)
  }

  lemma {:induction false} PrefixIsShorter(pieces: seq<Text>, i: nat)
    requires i <= |pieces|
    ensures |Flat(pieces[..i])| <= |Flat(pieces)|
    decreases |pieces| - i
  {
    if i < |pieces| {
      assert pieces[..i + 1][..i] == pieces[..i];
      PrefixIsShorter(pieces, i + 1);
    } else {
      assert pieces[..i] == pieces;
    }
  }

  lemma RunnerStep(before: seq<Text>, text: Text)
    ensures Flat(before + [text]) == Flat(before) + text
    ensures CutsAtLimit(before + [text]) <==>
      CutsAtLimit(before) || (|Flat(before)| == MAX_OUTPUT_CHARS && text != [])
  {
    var all := before + [text];
    assert all[..|before|] == before;
    forall i | 0 <= i <= |before|
      ensures all[..i] == before[..i] && |Flat(before[..i])| <= |Flat(before)|
    {
      PrefixIsShorter(before, i);
    }
    assert all[..|all|] == all && before[..|before|] == before;
    if |Flat(before)| == MAX_OUTPUT_CHARS && text != [] {
      assert |Flat(all[..|before|])| == MAX_OUTPUT_CHARS;
    }
    if CutsAtLimit(before) {
      var i :| 0 <= i <= |before| && |Flat(before[..i])| == MAX_OUTPUT_CHARS;
      assert |Flat(all[..i])| == MAX_OUTPUT_CHARS;
    }
    if CutsAtLimit(all) {
      var i :| 0 <= i <= |all| && |Flat(all[..i])| == MAX_OUTPUT_CHARS;
      assert i <= |before|;
      assert |Flat(before[..i])| == MAX_OUTPUT_CHARS;
    }
  }

  /** The output of a run depends on how its text was split: it is as expected exactly when no piece ends at the limit. */
  method RunnerOutputOf(pieces: seq<Text>) returns (output: Text)
    ensures output == RunnerCut(Flat(pieces)) <==> !CutsAtLimit(pieces)
    ensures CutsAtLimit(pieces) ==> output == Flat(pieces)[..MAX_OUTPUT_CHARS] + RUNNER_MARKER
  {
    var runner := new RunnerOutput();
    for index := 0 to |pieces|
      invariant fresh(runner) && runner.Valid() && runner.pieces == pieces[..index]
    {
      runner.Append(pieces[index]);
    }
    assert pieces[..|pieces|] == pieces;
    return runner.output;
  }

  /** A first piece of exactly the limit, and one more: the same text in one piece has a line break more. */
  method LineBreakIsLost(text: Text, more: Text) returns (split: Text, whole: Text)
    requires |text| == MAX_OUTPUT_CHARS && more != []
    ensures split == text + RUNNER_MARKER && whole == text + [10] + RUNNER_MARKER
  {
    CutsBetween(text, more);
    split := RunnerOutputOf([text, more]);
    whole := RunnerOutputOf([text + more]);
  }

  lemma CutsBetween(text: Text, more: Text)
    requires |text| == MAX_OUTPUT_CHARS && more != []
    ensures Flat([text, more]) == Flat([text + more]) == text + more
    ensures CutsAtLimit([text, more]) && !CutsAtLimit([text + more])
  {
    var pieces, one := [text, more], [text + more];
    assert pieces[..1] == [text] && pieces[..2] == pieces && one[..0] == [] && one[..1] == one;
    assert Flat([text]) == text && Flat(pieces) == text + more && Flat(one) == text + more;
    assert |Flat(pieces[..1])| == MAX_OUTPUT_CHARS;
  }
}
