/**
 * Clients of the component that use only its contracts: the end-to-end
 * session, selection independence, and the idempotence of the selection
 * operations and of clearing.
 */
module Scenarios {
  import opened Wrappers
  import opened Responses
  import opened Text
  import opened App

  /** The command word of `lpush x 1`. */
  lemma LpushSelectsLpush()
    ensures FirstToken("lpush x 1") == "lpush"
  {
    FirstTokenOfWord("lpush", "x 1");
    assert "lpush" + [Space] + "x 1" == "lpush x 1";
  }

  /**
   * A new session with nothing selected: submit `lpush x 1`, receive its
   * result, then clear; the selection survives the clear.
   */
  method NewSession() {
    var c := new AppComponent<int>(None, None);
    var echo := Output(true, "LPUSH X 1", "command");
    Submit(c, "lpush x 1");
    assert c.transcript == [echo];
    var result := Output(true, "(integer) 1", "result");
    c.Deliver(Some(result));
    assert c.transcript == [echo] + [result];
    ClearKeepsSelection(c);
    assert c.transcript == [];
    assert c.activeCommand == Some("lpush");
  }

  /** From an empty session, submitting `lpush x 1` echoes `LPUSH X 1`, sends the command and selects `lpush`. */
  method Submit<Pattern>(c: AppComponent<Pattern>, command: string)
    requires command == "lpush x 1"
    requires c.Valid() && c.transcript == [] && c.sent == []
    modifies c
    ensures c.Valid()
    ensures c.transcript == [Output(true, "LPUSH X 1", "command")]
    ensures c.sent == [command]
    ensures c.activeCommand == Some("lpush")
  {
    assert Echo(command) == Output(true, "LPUSH X 1", "command") by { UpperExample(); }
    assert FirstToken(command) == "lpush" by { LpushSelectsLpush(); }
    c.RunCommand(command);
  }

  /** Clearing empties the transcript, twice as well as once, and leaves the selection alone. */
  method ClearKeepsSelection<Pattern>(c: AppComponent<Pattern>)
    requires c.Valid()
    modifies c
    ensures c.Valid() && c.transcript == [] && c.sent == old(c.sent)
    ensures c.activeCommand == old(c.activeCommand) && c.activePattern == old(c.activePattern)
  {
    var command, pattern := c.activeCommand, c.activePattern;
    c.ClearOutput();
    assert c.transcript == [];
    c.ClearOutput();
    assert c.transcript == [];
    assert c.activeCommand == command && c.activePattern == pattern;
  }

  /** Picking a suggestion fills the input and selects it, without touching the transcript. */
  method WriteWithoutDispatch() {
    var c := new AppComponent<int>(None, None);
    c.WriteCommand("ping");
    assert c.activeCommand == Some("ping") && c.newCommandForInput == Some("ping");
    assert c.transcript == [] && c.sent == [];
  }

  /** Selecting patterns never moves the active command, and selecting commands never moves the pattern. */
  method SelectionIndependence<Pattern>(c: AppComponent<Pattern>, p: Pattern, q: Pattern, command: string)
    modifies c
  {
    c.SelectActiveCommand(command);
    c.SelectPattern(p);
    c.SelectPattern(q);
    assert c.activeCommand == Some(command);
    c.WriteCommand(command);
    assert c.activePattern == Some(q) && c.serviceActivePattern == Some(q);
  }

  /** Selecting the same pattern twice, or writing the same command twice, is the same as once. */
  method SelectionIsIdempotent<Pattern>(c: AppComponent<Pattern>, p: Pattern, command: string)
    modifies c
  {
    c.SelectPattern(p);
    c.WriteCommand(command);
    var pattern, service, input, active := c.activePattern, c.serviceActivePattern, c.newCommandForInput, c.activeCommand;
    c.SelectPattern(p);
    c.WriteCommand(command);
    assert c.activePattern == pattern && c.serviceActivePattern == service;
    assert c.newCommandForInput == input && c.activeCommand == active;
  }
}
