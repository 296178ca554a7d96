/**
 * The session controller of the console (`AppComponent`): it owns the
 * transcript fed by the current-response channel, the selection state it
 * mirrors into the command and pattern services, and the dispatch of
 * submitted commands to the transport.
 */
module App {
  import opened Wrappers
  import opened Responses
  import opened Text

  /** What the component does to the outside, in order: a push into the channel, or a send. */
  datatype Effect = Pushed(update: Update) | Sent(command: string)

  /** The updates pushed into the current-response channel, in order. */
  ghost function Updates(trace: seq<Effect>): seq<Update>
  {
    if trace == [] then []
    else
      var last := trace[|trace| - 1];
      Updates(trace[..|trace| - 1]) + (if last.Pushed? then [last.update] else [])
  }

  /** The commands handed to the transport, in order. */
  ghost function Sends(trace: seq<Effect>): seq<string>
  {
    if trace == [] then []
    else
      var last := trace[|trace| - 1];
      Sends(trace[..|trace| - 1]) + (if last.Sent? then [last.command] else [])
  }

  /** A push adds its update to the pushed updates and leaves the sends alone. */
  lemma PushedIsRecorded(trace: seq<Effect>, u: Update)
    ensures Updates(trace + [Pushed(u)]) == Updates(trace) + [u]
    ensures Sends(trace + [Pushed(u)]) == Sends(trace)
  {
    assert (trace + [Pushed(u)])[..|trace|] == trace;
  }

  /** A send adds its command to the sends and leaves the pushed updates alone. */
  lemma SentIsRecorded(trace: seq<Effect>, command: string)
    ensures Updates(trace + [Sent(command)]) == Updates(trace)
    ensures Sends(trace + [Sent(command)]) == Sends(trace) + [command]
  {
    assert (trace + [Sent(command)])[..|trace|] == trace;
  }

  /** The local echo of a submitted command. */
  function Echo(commandString: string): Output
  {
    Output(true, Upper(commandString), "command")
  }

  /** The component's transcript is exactly the outputs pushed since the last reset, in push order. */
  lemma TranscriptIsSinceLastReset<Pattern>(c: AppComponent<Pattern>)
    requires c.Valid()
    ensures c.transcript == SinceLastReset([], Updates(c.trace))
  {
    FoldIsEventsSinceLastReset([], Updates(c.trace));
  }

  class AppComponent<Pattern> {
    /** The accumulator of `scan` over the channel: the transcript the view shows. */
    var transcript: seq<Output>
    /** The slot `commandService.activeCommand`. */
    var activeCommand: Option<string>
    /** The component's own `activePattern` field. */
    var activePattern: Option<Pattern>
    /** The slot `patternService.activePattern`. */
    var serviceActivePattern: Option<Pattern>
    /** The pending text of the command input. */
    var newCommandForInput: Option<string>
    /** The commands passed to the transport's `send`, oldest first. */
    var sent: seq<string>

    /** Every push into the channel and every send, in the order they happened. */
    ghost var trace: seq<Effect>
    /** Every snapshot `responses$` has emitted, oldest first. */
    ghost var published: seq<seq<Output>>

    /** The transcript is the fold of everything pushed; each push published one full snapshot. */
    ghost predicate Valid()
      reads this
    {
      transcript == Fold([], Updates(trace)) &&
      published == Scan([], Updates(trace)) &&
      sent == Sends(trace)
    }

    /**
     * Construction: the channel is seeded with `null`, so the first snapshot is
     * empty. The two service slots keep whatever value the services held.
     */
    constructor (commandSlot: Option<string>, patternSlot: Option<Pattern>)
      ensures Valid()
      ensures trace == [Pushed(None)] && published == [[]]
      ensures transcript == [] && sent == []
      ensures activeCommand == commandSlot && serviceActivePattern == patternSlot
      ensures activePattern == None && newCommandForInput == None
    {
      transcript := [];
      activeCommand := commandSlot;
      activePattern := None;
      serviceActivePattern := patternSlot;
      newCommandForInput := None;
      sent := [];
      trace := [];
      published := [];
      new;
      Deliver(None);
    }

    /**
     * `currentResponseBs.next(u)` and the `scan` step it triggers; transport
     * responses arrive through this too, as `Some(response)`.
     */
    method Deliver(u: Update)
      requires Valid()
      modifies this`transcript, this`trace, this`published
      ensures Valid()
      ensures trace == old(trace) + [Pushed(u)]
      ensures transcript == Step(old(transcript), u)
      ensures published == old(published) + [transcript]
    {
      ghost var us := Updates(trace);
      PushedIsRecorded(trace, u);
      FoldSnoc([], us, u);
      ScanSnoc([], us, u);
      transcript := Step(transcript, u);
      trace := trace + [Pushed(u)];
      published := published + [transcript];
    }

    /** `redisConnectService.send(command)`: the command goes to the transport as given. */
    method Send(command: string)
      requires Valid()
      modifies this`sent, this`trace
      ensures Valid()
      ensures trace == old(trace) + [Sent(command)]
      ensures sent == old(sent) + [command]
    {
      SentIsRecorded(trace, command);
      sent := sent + [command];
      trace := trace + [Sent(command)];
    }

    /** `selectActiveCommand`: the command service's slot takes the command verbatim. */
    method SelectActiveCommand(command: string)
      modifies this`activeCommand
      ensures activeCommand == Some(command)
    {
      activeCommand := Some(command);
    }

    /** `writeCommand`: fills the input and selects the command, without dispatching it. */
    method WriteCommand(command: string)
      modifies this`newCommandForInput, this`activeCommand
      ensures newCommandForInput == Some(command)
      ensures activeCommand == Some(command)
    {
      newCommandForInput := Some(command);
      SelectActiveCommand(command);
    }

    /** `selectPattern`: the component's field and the pattern service's slot both take the pattern. */
    method SelectPattern(pattern: Pattern)
      modifies this`activePattern, this`serviceActivePattern
      ensures activePattern == Some(pattern)
      ensures serviceActivePattern == Some(pattern)
    {
      activePattern := Some(pattern);
      serviceActivePattern := Some(pattern);
    }

    /**
     * `runCommand`: echoes the upper-cased command into the transcript, then
     * sends the command unchanged, then selects its first space-separated piece.
     */
    method RunCommand(commandString: string)
      requires Valid()
      modifies this`transcript, this`trace, this`published, this`sent, this`activeCommand
      ensures Valid()
      ensures trace == old(trace) + [Pushed(Some(Echo(commandString))), Sent(commandString)]
      ensures transcript == old(transcript) + [Echo(commandString)]
      ensures published == old(published) + [transcript]
      ensures sent == old(sent) + [commandString]
      ensures activeCommand == Some(FirstToken(commandString))
    {
      var newCommand := Output(true, Upper(commandString), "command");
      Deliver(Some(newCommand));
      Send(commandString);
      var pieces := Split(commandString, Space);
      SplitHeadIsFirstToken(commandString);
      SelectActiveCommand(pieces[0]);
    }

    /** `clearOutput`: pushes the reset, so the transcript becomes empty. */
    method ClearOutput()
      requires Valid()
      modifies this`transcript, this`trace, this`published
      ensures Valid()
      ensures trace == old(trace) + [Pushed(None)]
      ensures transcript == []
      ensures published == old(published) + [[]]
    {
      Deliver(None);
    }
  }
}
