# Session controller of the Redis patterns console, in Dafny

This project models `AppComponent`, the session controller of a console that sends Redis
commands and shows their responses. The component does three things:

- **Transcript accumulator.** A `scan` over the current-response channel folds each update
  into the transcript the view shows. An output is appended at the end. `null` is the reset
  signal and empties the transcript. The channel is a `BehaviorSubject` seeded with `null`,
  so the first snapshot is empty.
- **Command dispatcher.** `runCommand` first pushes a local echo `{valid: true, output:
  upper-cased command, type: 'command'}` into the channel. It then sends the command,
  unchanged, to the transport. Last, it selects the first piece of `split(' ')` as the active
  command. `writeCommand` fills the input and selects the command without sending it.
  `clearOutput` pushes the reset.
- **Selection state.** `selectActiveCommand` writes the command service's active-command
  slot. `selectPattern` writes both the component's own `activePattern` and the pattern
  service's slot.

Modules:

- `Wrappers` (`wrappers.dfy`): `Option`. `None` stands for `null` / `undefined`.
- `Responses` (`responses.dfy`): the `Output` record and the reducer `Step`. It also holds
  the left fold `Fold`, the operator's emissions `Scan`, and an independent description of
  the transcript, `SinceLastReset`: the outputs after the last reset (`ResetCut`,
  `Events`). The lemmas connect the fold to it.
- `Text` (`text.dfy`): ASCII `Upper`, `Split` / `Join` with both round trips, and
  `FirstToken` (the prefix before the first space), tied to `Split(s, ' ')[0]`.
- `App` (`app_component.dfy`): the class `AppComponent<Pattern>`. Its fields are the
  transcript, the two service slots, the local pattern, the pending input and the log of
  sent commands. A ghost `trace` records every push and every send in order. A ghost
  `published` records every snapshot. `Valid()` says three things: the transcript is the
  fold of everything pushed; the snapshots are the `Scan` of it; the sent log is the sends
  in the trace.
- `Scenarios` (`scenarios.dfy`): clients that use only the class contracts. They cover
  submit-then-respond, clear twice, write without dispatch, selection independence and
  idempotence.

The transport's `send(command)` is `AppComponent.Send`, which appends to `sent`. A response
arriving from the transport is a call to `AppComponent.Deliver(Some(response))`, which is
what the subscription does.

Two details of the dispatcher:

- The active command is the first piece of `split(' ')`. Only the single space character
  separates, so `" get foo"` selects `""` and `"get\tfoo"` selects the whole string.
- The local echo is pushed on every `runCommand`.

## Model

| member | source | states |
|---|---|---|
| Responses.StepAppendsOrResets | src/app/app.component.ts:41 | a non-null update gives the old transcript unchanged as a prefix, then exactly that output, so the length grows by one; `null` gives `[]` |
| Responses.Fold | src/app/app.component.ts:39-42 | the fold never holds more entries than the seed plus the updates |
| Responses.Scan | src/app/app.component.ts:40-42 | `scan` emits exactly one snapshot per update |
| Responses.ResetCut | src/app/app.component.ts:39-41 | the cut lies just after a reset (or is 0), and every update from it on is an output |
| Responses.FoldSnoc | src/app/app.component.ts:41 | folding one more update is one more reducer step on the previous transcript |
| Responses.EventsWithoutReset | src/app/app.component.ts:41 | with no reset, the outputs are exactly the updates' payloads, position by position |
| Responses.EventsSnoc | src/app/app.component.ts:41 | one more update adds its output, if it carries one, at the end of the outputs |
| Responses.SinceLastResetSnoc | src/app/app.component.ts:41 | the description "outputs since the last reset" also grows by exactly one reducer step per update |
| Responses.FoldIsEventsSinceLastReset | src/app/app.component.ts:39-42 | the transcript is exactly the outputs delivered after the last reset, in delivery order; with no reset, the seed comes first |
| Responses.AppendOrderPreserved | src/app/app.component.ts:41 | N outputs with no reset are appended after the seed in the same order, so the length grows by N and the seed is untouched |
| Responses.ResetErasesHistory | src/app/app.component.ts:39-42 | whatever came before a reset, the result is the fold of what follows it alone |
| Responses.ResetIsIdempotent | src/app/app.component.ts:41 | a reset empties the transcript whatever it held, and a second reset gives the same `[]` |
| Responses.SeedResetIsNeutral | src/app/app.component.ts:22 | the `null` seed makes the first snapshot `[]` and changes nothing that follows |
| Responses.ResetExample | src/app/app.component.ts:39-42 | `[e1, e2, null, e3]` folds to `[e3]` |
| Responses.ScanSnoc | src/app/app.component.ts:40-42 | one more update adds exactly one snapshot: the whole new transcript |
| Responses.ScanPublishesFold | src/app/app.component.ts:40-42 | the i-th snapshot is the full transcript of the first i+1 updates, not a delta |
| Text.Upper | src/app/app.component.ts:76 | the echo text has the command's length, with each ASCII letter upper-cased and every other character kept |
| Text.UpperLeavesNoLowercase | src/app/app.component.ts:76 | the echo text holds no lower-case ASCII letter and keeps every non-letter in place |
| Text.UpperIsIdempotent | src/app/app.component.ts:76 | upper-casing the echo again changes nothing |
| Text.UpperExample | src/app/app.component.ts:76 | `"lpush x 1"` echoes as `"LPUSH X 1"` |
| Text.Split | src/app/app.component.ts:79 | `split` returns at least one piece, and no piece contains the separator |
| Text.JoinSplit | src/app/app.component.ts:79 | joining the pieces of `split` with the separator gives back the original string |
| Text.SplitWithoutSeparator | src/app/app.component.ts:79 | a string without the separator splits into itself alone |
| Text.SplitAfterPiece | src/app/app.component.ts:79 | a separator-free piece followed by the separator splits off as the first piece |
| Text.SplitJoin | src/app/app.component.ts:79 | splitting the join of separator-free pieces gives the pieces back |
| Text.FirstToken | src/app/app.component.ts:79-80 | the token is a prefix of the command with no space, and it stops only at a space or at the end |
| Text.SplitHeadIsFirstToken | src/app/app.component.ts:79-80 | the first piece of `split(' ')` is exactly the prefix before the first space |
| Text.FirstTokenOfWord | src/app/app.component.ts:79-80 | a space-free word followed by a space and any arguments selects that word |
| Text.FirstTokenWithoutSpace | src/app/app.component.ts:79-80 | a command with no space (tabs included) selects the whole command |
| Text.FirstTokenExample | src/app/app.component.ts:79-80 | `"set key value"` gives `"set"`, discarding `"key value"` |
| Text.FirstTokenEdgeCases | src/app/app.component.ts:79-80 | `""` and `" get foo"` give `""`; `"get\tfoo"` stays whole, because a tab does not separate |
| App.TranscriptIsSinceLastReset | src/app/app.component.ts:39-42 | whenever the component is consistent, its transcript is exactly the outputs pushed since the last reset, in push order |
| App.AppComponent.constructor | src/app/app.component.ts:22 | the channel starts with the `null` seed, so the transcript is `[]` and one empty snapshot is published; nothing is sent; the local pattern and the input are unset |
| App.AppComponent.Deliver | src/app/app.component.ts:36-42 | a push records the update, applies one reducer step and publishes the new full transcript, keeping the fold invariant |
| App.AppComponent.Send | src/app/app.component.ts:78 | the command is appended to the transport log as given |
| App.AppComponent.SelectActiveCommand | src/app/app.component.ts:49-51 | the command service's slot takes the command verbatim, and nothing else changes |
| App.AppComponent.WriteCommand | src/app/app.component.ts:57-60 | the pending input and the active command both become the command verbatim; the transcript, the sent log and the patterns are unchanged |
| App.AppComponent.SelectPattern | src/app/app.component.ts:66-69 | the local and service patterns both become the pattern; nothing else changes, so a second call is a no-op |
| App.AppComponent.RunCommand | src/app/app.component.ts:75-81 | the upper-cased echo is pushed before the verbatim command is sent; one transcript entry and one sent entry are added; the active command becomes the prefix before the first space |
| App.AppComponent.ClearOutput | src/app/app.component.ts:87-89 | the reset is pushed, the transcript becomes `[]`, an empty snapshot is published, and the selection is unchanged |

## Left out

- Angular `@Component` metadata, dependency injection and the template are framework plumbing with no logic.
- The rxjs machinery is not modelled: the `Subscription`, `asObservable` and `unsubscribe` in `ngOnDestroy`. The model assumes one subscriber attached at construction, and pushes are processed synchronously.
- The `BehaviorSubject` replays only the latest value to a late subscriber. That is not modelled, for the same reason.
- Responses from the transport arrive at arbitrary times. They are calls to `Deliver`, so any interleaving with user actions can be expressed, but no scheduling is modelled.
- `resetCommand$` is a passthrough of a service observable with no logic here.
- `selectedDoc` is declared but never written by the component.
- The internals of `RedisConnectService.send`, `CommandService` and `PatternService` are not modelled. `send` is an append-only log. The services are single slots whose values at construction are constructor parameters. Writes to those slots by other components are not modelled.
- The `Output` and `Pattern` interface files are not part of this model. `Output` is a record with the three fields the component uses. `type` is named `kind` because `type` is a Dafny keyword. `Pattern` is a type parameter that the component never inspects.
- Text.Upper: upper-cases ASCII letters only. JavaScript's `toUpperCase` applies full Unicode case mapping, which can change the length (`"ß"` becomes `"SS"`). That mapping depends on a library table.
