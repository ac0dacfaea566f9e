# Proofs for botroster's stores, scheduler and agent loop

botroster keeps Bots: each has a conversation log, an inbox other Bots hand work
to, and routines that run on a schedule or when a webhook arrives. A run drives
a language model through tool calls and is written back to the log. This
project models the parts of that which keep state and promise something about
whole runs, and proves the promises, or the exact condition under which they
hold.

`dafny verify dfyconfig.toml` checks everything.

## How the model is laid out

Files are sequences of bytes, and a file that does not exist is `None`. Each
file operation is one step, and a process may die between any two steps. A
serialised value is whatever an encoder and a decoder make of it (`Codec`); all
that is asked of the pair is that a value fits on one line of text that is not
blank, holds no carriage return, and reads back. Model turns, tool answers, what a
person says, and crashes are arbitrary inputs.

| file | what it is about |
|---|---|
| `Sequences`, `Lines`, `Codec`, `Tail` | a file's lines, values stored one to a line, and reading the last lines without the rest |
| `TornLog` | an append-only log whose writer dies in the middle of appends |
| `Inbox` | handing work over, taking it, and putting back what a dead process had taken |
| `Utf8`, `Events`, `Delivery` | remembering which webhook ids were delivered, and which posts start work |
| `Conversation`, `Window`, `Pairing` | calls and results in messages, and the repair of a window of them |
| `Compaction`, `Decimal`, `Turns`, `Endings`, `Agent`, `Redirects` | the agent loop: its context budget, its call ids, its exits and the reasons for them, and what is said to it while it runs |
| `Thread` | runs appended to a log and seeded from its tail, end to end |
| `Division`, `Calendar`, `Characters`, `Cron`, `Parts`, `Names`, `Weekdays`, `Schedule` | the Gregorian calendar, five-field schedules, what their words and names mean, Sunday written two ways, and when they fire next |
| `Routine` | when a run is owed, how long to wait after a failure, and how many firings were missed |
| `Hub` | the table that hands responses to the calls waiting on one connection |
| `Roster` | the sidebar's rows redrawn in place |
| `Account` | Bots, groups, and the cap they share |

Where the original changes things step by step, so does the model: classes with
the same fields, loops over the same variables. Each such method is tied by its
postcondition to a function of the old state, and the theorems are about that
function.

## What came out false, and exactly when it holds

Each of these has its input or its condition in the proofs; where both halves of
a condition are proved it says "if and only if".

- **A recovered inbox can lose a handoff.** `recover_inbox` takes the batch for
  already merged when the inbox begins with the taken bytes. A handoff's number
  starts again at 0 in an empty inbox, so the same words sent before and after
  an interrupted drain make the same line, and one of the two is dropped
  (`Inbox.SameWordsTwice`). When no two sends say the same, only a process that
  dies with a batch in hand loses any (`Inbox.ExactlyOnceWhenSaidOnce`), and it
  does so if and only if that happens.
- **`next_after` returns nothing for dates that do come.** Its comment says only
  impossible dates end the search. From 1 March 2096 to 1 January 2100 the
  schedule `0 0 29 2 *` is found nothing for, although it fires in 2104
  (`Schedule.CenturyGap`, `Schedule.LeapDayExpression`). It answers if and only if
  the schedule names a day that exists and, when leap days are all it names, one
  lies inside the window (`Schedule.FoundExactly`). A routine whose last run fell
  in that gap is never due again (`Routine.NeverDueAgain`), and the count of
  missed firings is right if and only if no such gap lies before the last firing
  counted (`Routine.StepsExactly`).
- **A step near 2^32 wraps.** With overflow checks off, `field` goes on below the
  part's low end (`Cron.SweepWraps`). A part sweeps the values on its steps if
  and only if its first step does not overflow (`Cron.SweepExact`). With the
  checks on the original stops there instead.
- **Sunday cannot be written 7 everywhere.** By itself it can
  (`Weekdays.SundayEitherWay`); `0-2` is a range and `7-2` is refused, and `7/2` is
  Sunday alone. `Weekdays.SundayAlone`, `Weekdays.SundayFirst` and
  `Weekdays.SundayLast` say when a step or a range stands for the same days, if
  and only if.
- **An event routine's failed attempt is never retried.** `record_run` sets a time
  for it and the event's id is remembered, but an attempt is owed again if and
  only if the routine runs on a schedule (`Routine.RetryOwedExactly`).
- **An id with white space around it, or a newline in it,** is never recognised,
  so each delivery runs again (`Delivery.WorksAgainExactly`, if and only if), and
  a padded one shadows the id without (`Delivery.PaddedTakesTheIdsPlace`).
- **A manual run can change the next wait.** It leaves it alone if and only if it
  falls where it is harmless (`Routine.ManualRunWait`); a rehearsal in the middle
  of an outage starts the waits over (`Routine.RehearsalResetsWait`).
- **A call registered after the reader's final clear** waits for ever, though the
  comment there promises every waiter fails (`Hub.LateWaitsForever`,
  `Hub.ALateCall`); a waiting call can return if and only if it registered before
  (`Hub.WhoCanStillReturn`).
- **A group's window is not repaired**, so a run in a group can be seeded with a
  result whose call is cut off. `Thread.GroupWindowLegal` says by position when
  it is legal, if and only if.
- **Compaction can make a conversation larger**, if and only if the results it
  replaces are shorter, together, than the text that replaces them
  (`Compaction.GrowsExactly`, `Compaction.CompactCanGrow`).
- **Two Bots with one display name** leave a stray row behind in the sidebar at
  the next redraw (`Roster.SharedNameLeavesARow`); rows are left over if and only
  if two shared a name (`Roster.ShadowedMeaning`).
- **A run that says nothing reports an old answer**: the text is that of the last
  message of the run that speaks, or of the history when none does
  (`Agent.Drive`, `Agent.LastSaid`).
- **A call id used twice in a window** can keep a call alive for an answer that
  came before it (`Window.LateCallKept`). Every call of a repaired window has a
  later answer if and only if no id has both a call that is answered later and
  one that is not (`Window.AnsweredLaterExactly`).
- **A whole log cannot be read back after some crashes**: a crash that cuts an
  append inside a character leaves a line that is not text, and reading without
  a limit stops there with an error. It does so if and only if a line with such a
  piece glued to it, or the piece the file ends in, is not text
  (`Thread.ReadAfterCrashes`). Reading with a limit passes over it.
- **Two Bots can come to display one name.** `rename` means to rule that out, but
  it and `create` compare the ids that names make: rename one Bot and make another
  under the same name (`Account.ShareAName`). A new Bot shares its name only with
  one that was renamed (`Account.SharedOnlyAfterRename`), and a shared name finds
  neither (`Account.SharedNameFindsNobody`).

## Model

| member | source | states |
|---|---|---|
| Lines.FlattenRawLines | crates/botroster-bots/src/lib.rs:2493-2522 | Cutting a file after every newline loses no byte. |
| Lines.LinesOfUnlines | crates/botroster-bots/src/lib.rs:2466-2482 | What `append_lines` writes reads back as the lines it was given, when they hold no newline and end in no carriage return. |
| Lines.CarriageReturns | crates/botroster-bots/src/lib.rs:2466-2522 | A file whose lines end in a carriage return and a newline reads as it would with the newline alone. |
| Lines.UnlinesPrefix | crates/botroster-bots/src/lib.rs:1652-1653 | One file of whole lines begins with another's bytes exactly when its lines begin with the other's lines, whatever the lines hold. |
| Lines.SuffixLines | crates/botroster-bots/src/lib.rs:2507-2513 | Reading a file from any byte and dropping the first piece leaves exactly the lines after the one that holds that byte. |
| Tail.WindowIsSuffix | crates/botroster-bots/src/lib.rs:2507-2513 | What is kept of a window is the end of the whole file's lines, and the line before it reaches back past the window's start. |
| Tail.TailLines | crates/botroster-bots/src/lib.rs:2493-2522 | Exactly the last min(want, total) lines, for any file; it terminates, and reads no more than the first window or fewer than four times the bytes of the lines it returns. |
| Codec.ParseFileOf | crates/botroster-bots/src/lib.rs:676-688 | A file written one value to a line reads back as those values. |
| Codec.ParseAround | crates/botroster-bots/src/lib.rs:676-688 | Among other lines, a line that is blank or does not parse counts for nothing, and any other for its value. |
| Codec.FileOfPrefix | crates/botroster-bots/src/lib.rs:1652-1653 | Comparing two such files by bytes is comparing their values. |
| TornLog.CutMeaning | crates/botroster-bots/src/lib.rs:2466-2482 | An append cut at any byte leaves some whole lines and a piece of the next one. |
| TornLog.ReadsBytes | crates/botroster-bots/src/lib.rs:546-574 | After any appends, each cut anywhere, the lines of the file's bytes are the kept and the glued lines and the piece the file ends in. |
| TornLog.BodyIsKeptAndGlued | crates/botroster-bots/src/lib.rs:2466-2482 | Those lines are the kept ones and the glued ones, each in their own order. |
| TornLog.GluedNoMoreThanCrashes | crates/botroster-bots/src/lib.rs:2466-2482 | Glued lines and the last piece together are no more than the crashes. |
| TornLog.KeptAndLost | crates/botroster-bots/src/lib.rs:2466-2482 | Every line written is kept, in order, or is one of the lost: the unfinished rest of a cut append, and the first line completed after it. |
| TornLog.NoCrashNothingLost | crates/botroster-bots/src/lib.rs:2466-2482 | Without a crash nothing is lost or left over. |
| TornLog.ReaderSees | crates/botroster-bots/src/lib.rs:676-688 | What a reader takes from such a log is the values of the kept lines in order, with those of glued lines that happen to be values among them in their order, and then the last piece's if it is one. |
| TornLog.ReaderSeesKept | crates/botroster-bots/src/lib.rs:676-688 | When no glued line is a value it is the kept ones and the last piece's, and no more. |
| TornLog.AllText | crates/botroster-bots/src/lib.rs:556-560 | When what was written is text, every line of the file is, if and only if every glued line and the last piece are. |
| TornLog.NextLineIsLost | crates/botroster-bots/src/lib.rs:2466-2482 | A crash inside a line costs the next append's first line too, whatever the two lines are. |
| Inbox.Store.Send | crates/botroster-bots/src/lib.rs:1554-1592 | A handoff to a Bot that exists, from anyone but itself, is one line at the end of its inbox with the next number; otherwise nothing changes. |
| Inbox.Store.DrainInbox | crates/botroster-bots/src/lib.rs:1600-1624 | Everything in the inbox is returned, and inbox and taken file are gone. |
| Inbox.Store.RecoverInbox | crates/botroster-bots/src/lib.rs:1640-1667 | The taken bytes are put in front of the inbox unless they are there already, and the taken file is gone. |
| Inbox.NextKeepsInv | crates/botroster-bots/src/lib.rs:1554-1667 | Every send, file operation and crash keeps the account of what was sent, returned and is pending, and loses nothing exactly when it is not one of the two losing steps. |
| Inbox.ExactlyOnce | crates/botroster-cli/src/main.rs:2829-2832 | Over any interleaving of sends, recover-then-drain processes and crashes between any two file operations, what was returned followed by what is pending is what was sent, in order and once each, if and only if no losing step was taken. |
| Inbox.NumbersRise | crates/botroster-bots/src/lib.rs:1565-1566 | In every reachable state the handoffs in an inbox are numbered one after the other, beginning again at 0 only behind ones put back; without a crash each has its place for a number. |
| Inbox.LeftAlone | crates/botroster-bots/src/lib.rs:1600-1667 | From any reachable state a process left alone does what the store's two methods do, and returns everything pending if and only if the inbox is not ambiguous. |
| Inbox.PutBack | crates/botroster-bots/src/lib.rs:1640-1667 | Recovery puts everything taken back if and only if the inbox is not ambiguous. |
| Inbox.SameWordsTwice | crates/botroster-bots/src/lib.rs:1648-1656 | The same words sent before and after an interrupted drain: one of the two handoffs is lost. |
| Inbox.DistinctNotAmbiguous | crates/botroster-bots/src/lib.rs:1646-1653 | An inbox is never ambiguous while no two handoffs are the same. |
| Inbox.ExactlyOnceWhenDistinct | crates/botroster-bots/src/lib.rs:1600-1667 | When no two handoffs of a run are the same, delivery is in order and once each if and only if no process dies between removing the taken file and handing its batch over. |
| Inbox.ExactlyOnceWhenSaidOnce | crates/botroster-bots/src/lib.rs:1554-1667 | The same, when no two sends have the same sender and words. |
| Events.EventLog.EventSeen | crates/botroster-bots/src/lib.rs:2966-2974 | Yes exactly for the ids that equal one of the last 10,000 remembered, trimmed, however often the file was rewritten. |
| Events.EventLog.RememberEvent | crates/botroster-bots/src/lib.rs:2981-2996 | The lines of the id, one unless it holds newlines, are remembered once the append is done, and a rewrite, even an interrupted one, changes no answer. |
| Events.EventLog.Rewrite | crates/botroster-bots/src/lib.rs:2989-2994 | Cutting the file down to its last 10,000 lines, through a temporary file and a rename, forgets nothing that counts. |
| Utf8.SpaceIsWhite | crates/botroster-bots/src/lib.rs:2973-2973 | A line begins with white space exactly when its first character is white, by its encoding. |
| Utf8.SpaceAtEndIsWhite | crates/botroster-bots/src/lib.rs:2973-2973 | And ends with it exactly when its last character is. |
| Utf8.TrimIsTrimmed | crates/botroster-bots/src/lib.rs:2973-2973 | Trimming the bytes of a text is trimming the text. |
| Characters.TrimmedMeaning | crates/botroster-bots/src/lib.rs:294-299 | What is trimmed off a text is white space, and all there is at its ends. |
| Events.TrimmedMembership | crates/botroster-bots/src/lib.rs:2970-2973 | For ids without white space around them the answer is plain membership. |
| Events.UntrimmedNeverSeen | crates/botroster-bots/src/lib.rs:2970-2973 | An id with white space at an end is never seen. |
| Events.MultiLineNeverSeen | crates/botroster-bots/src/lib.rs:2970-2973 | Nor is one that holds a newline. |
| Events.RecognisedExactly | crates/botroster-bots/src/lib.rs:2966-2996 | An id just remembered is recognised if and only if it is one line without white space at its ends. |
| Delivery.Gate.Receive | crates/botroster-cli/src/main.rs:1498-1584 | A post looks its id up, runs each routine it matches unless the id is known, and remembers the id only after the last. |
| Delivery.RememberedWasWorked | crates/botroster-cli/src/main.rs:1577-1583 | Over any posts, with any ids, each dying anywhere: for every post that got to the end, every routine was run for it or for a post whose id makes its id known. |
| Delivery.NoSecondWork | crates/botroster-bots/src/lib.rs:2937-2950 | After a post that got to the end, an id its lines make known starts no work until 10,000 lines have been remembered. |
| Delivery.AlwaysWorks | crates/botroster-bots/src/lib.rs:2937-2974 | An id that is padded or not one line starts its work at every delivery, whatever came before. |
| Delivery.WorksAgainExactly | crates/botroster-bots/src/lib.rs:2937-2974 | A second delivery within the window starts no work if and only if its id is a trimmed line or it matches nothing. |
| Delivery.StartsNoWorkExactly | crates/botroster-bots/src/lib.rs:2937-2974 | A delivery with work to do starts none if and only if, within the last 10,000 lines, some post remembered a line that is its id once trimmed. |
| Delivery.PaddedTakesTheIdsPlace | crates/botroster-bots/src/lib.rs:2937-2974 | For instance, once a padded id has been delivered to an empty log, the first delivery of the id without padding. |
| Window.RepairWindow | crates/botroster-bots/src/lib.rs:612-670 | The two passes compute `Repaired`, with a growing set of calls seen and one of results kept. |
| Window.RepairLegal | crates/botroster-bots/src/lib.rs:612-670 | What comes back is legal (no empty message, every result after its call, every call answered) and is made of the given blocks in their order. |
| Window.RepairGreatest | crates/botroster-bots/src/lib.rs:612-670 | Any legal window that can be made from the messages is part of the repaired one. |
| Window.RepairFixed | crates/botroster-bots/src/lib.rs:612-670 | A window comes back unchanged if and only if it is legal. |
| Window.RepairTwice | crates/botroster-bots/src/lib.rs:612-670 | A second pass changes nothing. |
| Window.LegalMeaning | crates/botroster-bots/src/lib.rs:576-611 | Legality by positions in the window is the same as one walk with the calls seen so far and a comparison of two sets. |
| Window.AnsweredLaterExactly | crates/botroster-bots/src/lib.rs:612-670 | After the repair every call has its answer in a later message if and only if no id has, in the window given, both a call that is answered later and one that is not. |
| Window.RepairedOpen | crates/botroster-bots/src/lib.rs:612-670 | A call of an id is left without a later answer exactly when the id has both. |
| Window.DistinctAnsweredLater | crates/botroster-bots/src/lib.rs:612-670 | So it is when no id is called by two messages. |
| Window.LateCallKept | crates/botroster-bots/src/lib.rs:612-670 | Without that, a call is kept for an answer to an earlier one. |
| Pairing.LegalRequest | crates/botroster-agent/src/agent.rs:508-586 | A legal history followed by what a run added, when nothing waits for an answer, is legal. |
| Pairing.ShapeKeepsLegal | crates/botroster-agent/src/agent.rs:69-101 | Compaction leaves a legal window legal. |
| Compaction.Transcript.Compact | crates/botroster-agent/src/agent.rs:69-101 | The first messages up to the point reached have their results replaced, nothing else changes (roles, ids, texts, inputs, flags, count), and what is returned is how many results lost their text. |
| Compaction.ReachMeaning | crates/botroster-agent/src/agent.rs:69-101 | It stops at the first prefix that makes the conversation fit and never touches the recent messages. |
| Compaction.CompactEnds | crates/botroster-agent/src/agent.rs:69-101 | What is left fits the budget, or every result but the recent ones has been replaced. |
| Compaction.CompactCounts | crates/botroster-agent/src/agent.rs:69-101 | What one compaction reports is exactly what it takes from the results that still had their text. |
| Compaction.CompactTwice | crates/botroster-agent/src/agent.rs:69-101 | Compacting again drops nothing and changes nothing. |
| Compaction.CompactSize | crates/botroster-agent/src/agent.rs:69-101 | The size changes by the texts that go and the placeholders that come. |
| Compaction.SizeMeaning | crates/botroster-agent/src/agent.rs:70-80 | The size of a conversation is what its texts, the arguments of its calls and the texts of its results take in UTF-8. |
| Compaction.GrowsExactly | crates/botroster-agent/src/agent.rs:69-101 | The conversation comes out larger if and only if the texts replaced are shorter, together, than the placeholders. |
| Compaction.CompactCanGrow | crates/botroster-agent/src/agent.rs:47-101 | And it can, whatever six recent messages are kept that are over the budget by themselves: an empty result before them is replaced and the conversation grows by the placeholder. |
| Decimal.NumberedInjective | crates/botroster-agent/src/agent.rs:720-722 | `<id>-<step>` splits one way only, at its last dash, whatever dashes and digits the id has. |
| Decimal.IntTextInjective | crates/botroster-agent/src/hub_client.rs:435-440 | Two numbers printed the same are the same. |
| Decimal.DigitsRead | crates/botroster-agent/src/hub_client.rs:435-440 | A number is printed as the decimal digits that stand for it, with no 0 in front. |
| Turns.ResultFor | crates/botroster-agent/src/agent.rs:724-800 | An output goes back to the model as it is, or cut, and unmarked; an error goes back with its message, marked as one; each under the id of its call. |
| Turns.TextOfMeaning | crates/botroster-agent/src/model.rs:106-115 | The text of a message is its text blocks joined by newlines, and other blocks have no part in it. |
| Endings.EndsBecause | crates/botroster-agent/src/agent.rs:508-805 | A run ends at a step for a reason if and only if after every earlier step another turn followed and the turn at this step, the first of its calls to get an ending answer, the stop request, the tokens reported or the step limit gives that reason, each said outright. |
| Endings.SpentIsReported | crates/botroster-agent/src/agent.rs:600-622 | What a run has spent is the sum of the input and of the output its turns reported. |
| Endings.CallsMadeExactly | crates/botroster-agent/src/agent.rs:719-800 | A step makes its turn's calls in order, up to and with the first whose answer ends the run, each under its own id and the step's number. |
| Agent.AddedExactly | crates/botroster-agent/src/agent.rs:504-806 | What a run adds is, in order, every turn the model gave, and, in order, the task and everything said before a turn or before the run found it had to stop. |
| Agent.EachTurnAnswered | crates/botroster-agent/src/agent.rs:719-806 | Behind the turn of every step that went on comes one message with a result for each of its calls, in order, telling what the tool answered. |
| Agent.RequestsFit | crates/botroster-agent/src/agent.rs:508-519 | What the model is asked fits the context budget, but for what was just said, or has no result left but those of the last six messages. |
| Agent.CallTools | crates/botroster-agent/src/agent.rs:719-800 | The calls are made in order, each under its own id, all of them or exactly up to the first whose answer ends the run; when none does, each has its result. |
| Turns.CallIdsDistinct | crates/botroster-agent/src/agent.rs:692-722 | Whatever ids the model gives its calls, the calls made over any number of steps have different call ids. |
| Agent.SharesAnId | crates/botroster-agent/src/agent.rs:676-717 | Finds out exactly whether two calls of a turn share an id. |
| Turns.IssueMore | crates/botroster-agent/src/agent.rs:720-722 | One more step's call ids differ from each other and from all before. |
| Agent.Run.BeforeTurn | crates/botroster-agent/src/agent.rs:508-575 | Before money is spent: the conversation is cut down, a stop request is heeded, what was said is heard unless there was one, then the budget and the step limit are looked at; what the model is then asked is a legal window when the history was. |
| Agent.Run.ModelTurn | crates/botroster-agent/src/agent.rs:576-717 | A turn is charged and recorded, and ends the run exactly for the reasons a turn can give by itself. |
| Agent.Run.ToolTurn | crates/botroster-agent/src/agent.rs:719-805 | All of the step's results come back in one message that answers the last one, or none do and the run ends. |
| Agent.Drive | crates/botroster-agent/src/agent.rs:488-806 | After every step before the last another turn followed, and the run ends with a reason if and only if the last step gives it (completed, cut short, declined, failed, stopped, hub gone, computer taken over, nothing approved, budget, step limit), read from the turns, answers, stop requests and tokens themselves; the transcript is exactly the history and what the run added, cut down to the context budget before every turn, so everything added is in it, in order, but for replaced results; every call it added is answered by the next message except at the end; at most `max_steps` turns, none once the tokens reached the budget; the calls made are those of its steps, in order, with no call id twice; what its cuts replaced, summed, is what the live results lost; every request is a legal window when the history is; the usage is the sum of what the turns reported; the text is the last thing said in the run, or before it when the run says nothing. |
| Turns.StopsOnce | crates/botroster-agent/src/agent.rs:508-805 | What is answered and said determines the step a run stops at and the reason it gives. |
| Agent.LastSaid | crates/botroster-agent/src/agent.rs:816-822 | The text of a history and what followed is that of what followed, or that of the history when nothing was said since. |
| Agent.ShapeKeepsText | crates/botroster-agent/src/agent.rs:69-101 | Compaction leaves what is reported as said alone. |
| Agent.OvershootsByOneTurn | crates/botroster-agent/src/agent.rs:551-564 | The budget is overshot by less than the last turn cost. |
| Turns.FinalTextMeaning | crates/botroster-agent/src/agent.rs:816-822 | The text of the last message in which the assistant said anything, and empty if and only if it never did. |
| Turns.Render | crates/botroster-agent/src/agent.rs:840-850 | Output within the limit is unchanged; longer output keeps its first 8,000 characters and ends by saying that it was cut. |
| Redirects.Queue.Send | crates/botroster-agent/src/agent.rs:353-359 | What is said is queued behind what was said before, unless it is blank. |
| Redirects.Queue.Take | crates/botroster-agent/src/agent.rs:362-376 | A look finds exactly what was accepted and not heard yet, in order. |
| Redirects.HeardOnce | crates/botroster-agent/src/agent.rs:343-376 | What was heard is always the first part of what was accepted, and what was accepted is everything said that is not blank. |
| Redirects.AcceptedOf | crates/botroster-agent/src/agent.rs:353-376 | Of two stretches of a history each adds what was said in it, once and in order. |
| Thread.ReadWindow | crates/botroster-bots/src/lib.rs:546-574 | Whatever a file holds, what is read from it is the repaired form of what its last lines parse to, and legal; reading all of it fails if and only if some line is not text. |
| Thread.ReadAfterCrashes | crates/botroster-bots/src/lib.rs:546-574 | Reading the whole of a log that crashes cut fails if and only if a glued line or the last piece is not text. |
| Thread.Log.History | crates/botroster-bots/src/lib.rs:546-574 | For a log of whole lines that is the repaired form of the last messages appended. |
| Thread.Log.Append | crates/botroster-bots/src/lib.rs:504-534 | The log grows by the messages, but for a first one that is the user message the log ends in; behind a message of text alone or of results alone that is said without more, and for any other by its text. |
| Thread.RestatesExactly | crates/botroster-bots/src/lib.rs:512-524 | Behind a message of text alone, or of results alone, a task is restated if and only if it is that message. |
| Thread.Log.RunTask | crates/botroster-cli/src/main.rs:3516-3567 | What is saved is the slice of the transcript this run added, whichever exit it took; the log grows by the task, unless it ends in it already, and the rest of the slice. |
| Thread.AttemptInVain | crates/botroster-bots/src/lib.rs:504-534 | However often a task is attempted without an answer from the model, it is in the log once. |
| Thread.AppendKeepsPaired | crates/botroster-bots/src/lib.rs:504-534 | A log of runs stays one in which every result answers the message right before it, even when a restated task is dropped. |
| Thread.TailLosesOnly | crates/botroster-bots/src/lib.rs:546-670 | Any tail of a log of runs keeps, after the repair, all but results cut off from their call, calls a run stopped before answering, and messages left empty. |
| Thread.TailLosesExactly | crates/botroster-bots/src/lib.rs:546-670 | And it is exactly that, when no id is called by two messages of the tail. |
| Thread.GroupWindowLegal | crates/botroster-bots/src/lib.rs:2099-2120 | A group's window, with no id called by two messages, is legal if and only if no message is empty, the first holds no result, and every message that makes calls is answered by the next. |
| Thread.WindowAfterCrashes | crates/botroster-bots/src/lib.rs:546-688 | What is read of a log whose appends crashes cut anywhere is a legal window, of which every legal window made from the surviving messages is part; and it is made from them when no glued line is a message. |
| Thread.TailAfterCrashes | crates/botroster-bots/src/lib.rs:546-688 | Its last lines hold the last of the messages in it, and repair to a legal window. |
| Thread.GroupPairs | crates/botroster-bots/src/lib.rs:2081-2092 | Runs appended to a group's thread keep every result right after its call. |
| Thread.Log.AppendGroup | crates/botroster-bots/src/lib.rs:2081-2092 | A group's thread grows by all the messages. |
| Thread.Log.GroupHistory | crates/botroster-bots/src/lib.rs:2099-2120 | A group's window is the last messages as they stand. |
| Thread.RunInGroup | crates/botroster-cli/src/main.rs:3516-3567 | A member's turn is seeded with that window, adds its slice to the thread, and asks with legal requests when the window was legal. |
| Calendar.DateOfDayNumber | crates/botroster-bots/src/schedule.rs:107-125 | Days and dates correspond one to one over all years. |
| Calendar.DatesFollowTheRule | crates/botroster-bots/src/schedule.rs:107-125 | The next day has the next date and the next weekday. |
| Calendar.EpochDate | crates/botroster-bots/src/schedule.rs:107-125 | Day 0 is Thursday, 1 January 1970. |
| Calendar.SlotAhead | crates/botroster-bots/src/schedule.rs:92-99 | The day that would be 29 February of a fourth year comes round within 1,460 days. |
| Cron.SweepExact | crates/botroster-bots/src/schedule.rs:205-211 | A part sweeps exactly the values in its range that are a whole number of steps from its low end, if and only if its first step does not overflow 32 bits. |
| Cron.SweepWraps | crates/botroster-bots/src/schedule.rs:205-211 | When it does, values below the low end come in. |
| Parts.NumberMeaning | crates/botroster-bots/src/schedule.rs:183-196 | A number is read from decimal digits, after a plus sign or none, when it fits into 32 bits, and from nothing else. |
| Parts.NumberPart | crates/botroster-bots/src/schedule.rs:192-207 | A number by itself is itself, with a step everything from it on; out of bounds it is refused. |
| Parts.RangePart | crates/botroster-bots/src/schedule.rs:183-207 | A range is refused when it goes backwards or leaves the bounds, each with its own error. |
| Parts.StarPart | crates/botroster-bots/src/schedule.rs:181-182 | A star is everything within the bounds. |
| Parts.BadRange | crates/botroster-bots/src/schedule.rs:183-196 | What is no number is named in the error: before the dash, then behind it, or by itself. |
| Parts.BadStep | crates/botroster-bots/src/schedule.rs:168-180 | A step that is no number, or 0, is refused before anything else in the part. |
| Parts.StarField | crates/botroster-bots/src/schedule.rs:164-223 | A field that is a star, with a step or none, holds the values from the low bound on, in steps. |
| Parts.RangeField | crates/botroster-bots/src/schedule.rs:164-223 | A field that is a range holds what lies in it, in steps. |
| Parts.NumberField | crates/botroster-bots/src/schedule.rs:164-223 | A field that is a number holds it, or with a step everything from it up to the high bound, in steps. |
| Parts.ListField | crates/botroster-bots/src/schedule.rs:164-223 | Two lists joined by a comma hold what either holds, or are refused for the first that is wrong. |
| Cron.ParsePartsError | crates/botroster-bots/src/schedule.rs:164-205 | A refused list is refused for its first bad part, and for that part's reason. |
| Cron.FieldMeaning | crates/botroster-bots/src/schedule.rs:164-223 | An accepted field is not empty and within its upper bound; when no part's first step overflows it is within its lower bound too, and holds a value exactly when some part of the list has it on a step. |
| Cron.Field | crates/botroster-bots/src/schedule.rs:164-223 | The loop over the list computes that set, or the first error. |
| Cron.DowMeaning | crates/botroster-bots/src/schedule.rs:230-238 | Weekdays lie in 0..6; Sunday is among them exactly when the field has 0 or 7, and any other day exactly when the field has it. |
| Weekdays.SundayEitherWay | crates/botroster-bots/src/schedule.rs:230-238 | In any list, Sunday by itself may be written 0 or 7: the weekdays, or the error, are the same. |
| Weekdays.SameDaysSameSet | crates/botroster-bots/src/schedule.rs:230-238 | In any list a part can be put for another that stands for the same days. |
| Weekdays.SundayAlone | crates/botroster-bots/src/schedule.rs:192-211 | With a step behind it, 7 stands for what 0 does if and only if the step is 1, or at least 7 and short of wrapping past Sunday. |
| Weekdays.SundayFirst | crates/botroster-bots/src/schedule.rs:183-211 | At the front of a range, if and only if the range ends at 7 and the step is in those bounds. |
| Weekdays.SundayLast | crates/botroster-bots/src/schedule.rs:183-211 | At its end, if and only if the range starts at 0 and the step is at least 7. |
| Cron.NumbersLeaves | crates/botroster-bots/src/schedule.rs:240-248 | A text in which no name occurs is left as it is. |
| Names.NamesAreNumbers | crates/botroster-bots/src/schedule.rs:240-248 | In a text whose names stand apart, every name becomes its number, counted from the base, and nothing else changes. |
| Names.DayNames | crates/botroster-bots/src/schedule.rs:230-248 | Whatever their case, `sun` to `sat` stand for 0 to 6. |
| Names.MonthNames | crates/botroster-bots/src/schedule.rs:226-248 | And `jan` to `dec` for 1 to 12. |
| Cron.ParsedWellFormed | crates/botroster-bots/src/schedule.rs:66-97 | Every schedule that parses has five fields that are not empty and within their upper bounds, and no day or month 0 when no part of those fields overflows. |
| Cron.Parse | crates/botroster-bots/src/schedule.rs:66-97 | The five fields are read in order; the schedule or the error is the one the theorems are about, and a schedule is well formed. |
| Cron.ParsedError | crates/botroster-bots/src/schedule.rs:66-85 | An expression is refused when it has not five words, and otherwise for the first of its fields with something wrong. |
| Characters.WordThenRest | crates/botroster-bots/src/schedule.rs:67-67 | A word before white space, or at the end, is the first word of a text. |
| Characters.SpaceThenWord | crates/botroster-bots/src/schedule.rs:67-67 | White space in front of a text adds no word. |
| Schedule.FiresExactly | crates/botroster-bots/src/schedule.rs:66-160 | A schedule that parses fires at a minute if and only if the first two words name the time, the fourth the month, and the third and fifth the day: a star there names none by itself, and of two that are no stars either may. |
| Schedule.FiringByTheClock | crates/botroster-bots/src/schedule.rs:100-160 | It fires at the instants when clocks in its zone, so many minutes ahead of UTC, show a minute it fires in, and at no part of a minute. |
| Schedule.NextAfter | crates/botroster-bots/src/schedule.rs:100-129 | The minute-by-minute search is the function `Next`. |
| Schedule.NextIsLeast | crates/botroster-bots/src/schedule.rs:100-129 | The instant found is a firing strictly after the one given, with none between; and when none is found, none comes for 1,464 days. |
| Schedule.SatisfiableExactly | crates/botroster-bots/src/schedule.rs:100-160 | A schedule ever fires if and only if it names a month of the year and, when it goes by days of the month alone, a day that month can have. |
| Schedule.FoundExactly | crates/botroster-bots/src/schedule.rs:100-129 | A firing is found if and only if the schedule names such a day and, when leap days are all it names, one of them is inside the window. |
| Schedule.FoundWhenSatisfiable | crates/botroster-bots/src/schedule.rs:100-129 | From every start whose 1,464 days skip no leap day, one is found if and only if the schedule names a day that exists. |
| Schedule.CenturyGap | crates/botroster-bots/src/schedule.rs:92-129 | Around 2100 a leap-day schedule is found nothing for although it fires again. |
| Schedule.LeapDayExpression | crates/botroster-bots/src/schedule.rs:66-97 | `0 0 29 2 *` parses to such a schedule. |
| Routine.DueExactly | crates/botroster-bots/src/lib.rs:2656-2682 | After a completed run, due if and only if it is enabled, on a schedule, and a firing came since, or the end of a pending wait has come. |
| Routine.NeverRunDueExactly | crates/botroster-bots/src/lib.rs:2675-2681 | Before any, due if and only if it is enabled, on a schedule, and this is the minute of a firing. |
| Routine.Scheduler.TickAt | crates/botroster-cli/src/main.rs:1982-2081 | A tick attempts the routine if and only if it is due, and records the attempt; a paused one it leaves alone. |
| Routine.Scheduler.RunByHand | crates/botroster-cli/src/main.rs:1875-1922 | A run by hand goes through the recorder that leaves the schedule alone. |
| Routine.Scheduler.Switch | crates/botroster-cli/src/main.rs:1789-1806 | Pausing a routine, or starting it again, changes nothing else. |
| Routine.PausedNotAttempted | crates/botroster-bots/src/lib.rs:2656-2659 | Over any events, while a routine was last switched off no tick attempts it or changes it. |
| Routine.HistoryIsTheLast | crates/botroster-bots/src/lib.rs:3003-3060 | Over any events, its history is the last twenty of the runs recorded, those made by hand marked so. |
| Routine.EveryRunServesAFiring | crates/botroster-cli/src/main.rs:1982-2081 | From a new routine on, over any ticks and manual runs: a firing lies between any two completed scheduled runs that follow one another, and a pending retry stands for a firing not served. |
| Routine.OwedUntilDone | crates/botroster-bots/src/lib.rs:2656-2682 | Once a run has completed, a later firing stays owed while the routine is enabled until a run completes, whatever happens in between; for a schedule of leap days alone, if and only if one is in the window after that run. |
| Routine.ManualRunsInvisible | crates/botroster-bots/src/lib.rs:3045-3052 | Over any ticks, with or without failures, manual runs leave last run, retry time and completed runs as they would be without them, when each falls where it leaves the next wait as it is. |
| Routine.NeverDueAgain | crates/botroster-bots/src/lib.rs:2673-2674 | A routine the search finds nothing for is never due again. |
| Routine.RetryOwedExactly | crates/botroster-bots/src/lib.rs:3003-3026 | An attempt that is to be repeated is owed again, from the end of its wait, if and only if the routine is enabled and runs on a schedule. |
| Routine.EventNeverDue | crates/botroster-bots/src/lib.rs:2663-2665 | An event routine is never due, whatever happens. |
| Routine.Stored.RecordRun | crates/botroster-bots/src/lib.rs:3003-3026 | A run is added to the history, and moves the last run or sets the time of a retry. |
| Routine.Stored.RecordManualRun | crates/botroster-bots/src/lib.rs:3045-3052 | A manual run is added to the history, marked as one. |
| Routine.Stored.TrimRuns | crates/botroster-bots/src/lib.rs:3055-3060 | The last 20 runs are kept. |
| Routine.CountStreak | crates/botroster-bots/src/lib.rs:3010-3016 | Counts the retryable runs at the end of the history. |
| Routine.NthWait | crates/botroster-bots/src/lib.rs:3003-3026 | The nth failure in a row is followed by a wait of 10 times 2 to the min(n - 1, 5) minutes, although the history is trimmed. |
| Routine.OutageAttempts | crates/botroster-bots/src/lib.rs:2536-2544 | An outage of D >= 310 minutes sees at most 6 + (D - 310) / 320 attempts. |
| Routine.ManualRunWait | crates/botroster-bots/src/lib.rs:3010-3016 | A manual run leaves the wait after the next failure as it is if and only if it is not to be repeated and no streak has begun, or is and the waits have stopped growing. |
| Routine.RehearsalResetsWait | crates/botroster-bots/src/lib.rs:3010-3016 | A rehearsal in the middle of an outage starts the waits over. |
| Routine.Stored.Missed | crates/botroster-bots/src/lib.rs:2689-2705 | The loop counts steps of the search, up to 1,001. |
| Routine.StepsExactly | crates/botroster-bots/src/lib.rs:2696-2703 | Stepping with the search meets every firing once, up to 1,001, if and only if no window without a firing lies before the last of those. |
| Routine.MissedExactly | crates/botroster-bots/src/lib.rs:2689-2705 | Missed is the number of firings since the last run, up to 1,001, less one, if and only if no such window lies before the last of those or there was only one. |
| Routine.SeesUnlessSkipped | crates/botroster-bots/src/schedule.rs:100-129 | There is no such window for a schedule that names other days than leap days, nor for one that does not while no leap day is skipped. |
| Hub.NextKeepsInv | crates/botroster-agent/src/hub_client.rs:194-313 | Every turn of a caller or of the reader keeps the table, the slots and the answers consistent. |
| Hub.EachResponseToItsOwnCall | crates/botroster-agent/src/hub_client.rs:194-313 | In every interleaving a call returns only the outcome of a response with its own id, and no response is returned by two calls. |
| Hub.AsIfAlone | crates/botroster-agent/src/hub_client.rs:194-313 | In every interleaving each call fares as it would alone on the connection: the first response with its id, from its registration until reading stops, is its answer, and the clear ends its wait otherwise. |
| Hub.ResponseFillsItsSlot | crates/botroster-agent/src/hub_client.rs:202-204 | A response to a call in the table goes to that call, and to no other. |
| Hub.StrayResponse | crates/botroster-agent/src/hub_client.rs:202-204 | One that no call in the table waits for changes nothing. |
| Hub.AnsweredCallReturns | crates/botroster-agent/src/hub_client.rs:194-313 | A call whose response arrives between its registration and the end of reading returns that response's outcome, and nothing only if its request could not be written. |
| Hub.WhoCanStillReturn | crates/botroster-agent/src/hub_client.rs:262-313 | After the reader's final clear a waiting call can return if and only if it registered before it. |
| Hub.LateWaitsForever | crates/botroster-agent/src/hub_client.rs:262-313 | One that registered later waits whatever happens next. |
| Hub.ALateCall | crates/botroster-agent/src/hub_client.rs:262-313 | And there is a run in which one does. |
| Hub.Connection.RegisterCall | crates/botroster-agent/src/hub_client.rs:291-293 | A call's sender is in the table under its id before the request is sent. |
| Hub.Connection.ReceiveResponse | crates/botroster-agent/src/hub_client.rs:205-210 | A response fills the slot of the one open call whose id it carries, as a number or as text, and no slot when there is none. |
| Hub.Connection.ClearTable | crates/botroster-agent/src/hub_client.rs:262-264 | Every sender in the table is dropped. |
| Hub.Connection.WakeCall | crates/botroster-agent/src/hub_client.rs:304-312 | A call returns the outcome it was sent, or that the connection closed. |
| Roster.Row.Patch | crates/botroster-app/ui/main.js:863-894 | A row looks as its Bot should, whatever it looked like before, and its mark is redrawn when its id changed. |
| Roster.Sidebar.RenderRoster | crates/botroster-app/ui/main.js:920-939 | One row for each Bot in order, each the old row of that name where there was one, looking as it should; then only the old rows that shared a name; and nothing moves when the order is unchanged. |
| Roster.Sidebar.InsertBefore | crates/botroster-app/ui/main.js:932-934 | A row put before another leaves its old place and disturbs no other. |
| Roster.ShadowedMeaning | crates/botroster-app/ui/main.js:920-924 | Rows are left over if and only if two of them shared a name. |
| Roster.ShadowedExactly | crates/botroster-app/ui/main.js:920-924 | A row is one of those if and only if a later row has its name. |
| Roster.SharedNameLeavesARow | crates/botroster-app/ui/main.js:920-939 | After Bots that share a name, the next redraw leaves a stray row. |
| Account.SlugOfSlug | crates/botroster-bots/src/lib.rs:166-185 | An id is lower-case letters, digits and single inner dashes, and is its own id. |
| Account.SlugMeaning | crates/botroster-bots/src/lib.rs:166-185 | An id is the runs of letters and digits of the name, in small letters and in order, with one dash wherever anything else lies between two of them; a name without any has none. |
| Account.Store.Create | crates/botroster-bots/src/lib.rs:187-211 | A Bot is made exactly when its id is new and the cap allows it; a process that dies leaves the account valid. |
| Account.Store.Duplicated | crates/botroster-bots/src/lib.rs:428-431 | A copy carries the brief under a new id. |
| Account.Store.Resolve | crates/botroster-bots/src/lib.rs:245-282 | A text finds a Bot if and only if it means exactly one, by its id, the id it makes, or a displayed name. |
| Account.ResolvedExactly | crates/botroster-bots/src/lib.rs:245-282 | It is found if it is the only Bot whose id is the text, or the id the text makes, or whose displayed name it is; none is when there is no such Bot, or more than one, which are then listed. |
| Account.IdFinds | crates/botroster-bots/src/lib.rs:245-282 | A Bot's id finds it if and only if no other Bot displays that id as its name. |
| Account.SharedNameFindsNobody | crates/botroster-bots/src/lib.rs:276-281 | A name that two Bots display finds neither. |
| Account.Store.Rename | crates/botroster-bots/src/lib.rs:294-319 | The name changes, trimmed, and the id does not, unless another Bot's id is the new name's. |
| Account.SharedOnlyAfterRename | crates/botroster-bots/src/lib.rs:187-191 | A new Bot can share its displayed name only with one that was renamed. |
| Account.ShareAName | crates/botroster-bots/src/lib.rs:299-319 | A rename and then a create make two Bots that display one name. |
| Account.Store.CreateGroup | crates/botroster-bots/src/lib.rs:1976-2018 | A group of the distinct members, in the order named, is made exactly when its id is new, there are two to six of them, all exist and the cap allows it, and otherwise the first thing wrong is reported. |
| Account.Store.DeleteGroup | crates/botroster-bots/src/lib.rs:2072-2078 | The group goes and nothing else changes. |
| Account.Store.Delete | crates/botroster-bots/src/lib.rs:383-421 | At every point between file operations each group has one to six distinct members that exist and Bots and groups are within the cap; when it is done the Bot is in no group, and groups it emptied are gone. |
| Account.Deduped | crates/botroster-bots/src/lib.rs:1981-1986 | The loop keeps each member the first time it is named. |
| Account.FirstsMeaning | crates/botroster-bots/src/lib.rs:1981-1989 | Those are the members asked for, all different, as many as there are distinct ones. |
| Account.FirstsPrefix | crates/botroster-bots/src/lib.rs:1981-1989 | In the order they were first named. |
| Account.FirstMissingMeaning | crates/botroster-bots/src/lib.rs:1992-1996 | A group is refused for a missing member if and only if some member does not exist, and for the first such. |

## Left out

- Named time zones and daylight saving: behaviour of a library whose source is not part of this model. A zone is a whole number of minutes ahead of UTC.
- Instants and dates are unbounded; the library's range limits are not modelled.
- JSON, TOML and UTF-8: a line is bytes and its parser is a parameter. Which bytes are text is a parameter too, and bytes that are not are parsed as they are where the original first makes them into text.
- Tail.TailLines: a file is at most 2^64 - 1 bytes long, and so are the files of Events.
- Two processes inside one file operation: a handoff that arrives between recovery's read and its rename, an append to a file that was opened before a rename, two schedulers on one home.
- Thread.Log.Append: a log that would grow past 2^64 - 1 bytes is refused; the original leaves that to the file system.
- Agent.Drive: a model's turn is assumed to hold no tool results, tokens are unbounded integers, step numbers likewise, and the order of events sent to a watcher is not modelled.
- Agent.Run.ModelTurn: the race between a stop request and a model turn is one of the answers the model may give.
- Turns.Render: tool output is text already; turning a JSON value into text is not modelled.
- Hub.NextKeepsInv: progress frames, approval and secret requests, the handshake and the 64-bit wrap of the call counter are not modelled.
- Roster.Sidebar.RenderRoster: the dashed and busy styling, focus and event handlers of a row are not modelled; the number format is a parameter.
- Account.Store.Resolve: the order in which an ambiguous name's ids are listed.
- Account.Store.Delete: removing a directory takes the profile first and then the rest; the counts it reports are not modelled.
- Account.Store.Create: the position in the list and the hidden flag are not modelled.
- Routine.EveryRunServesAFiring: when a routine is paused for want of anyone watching, and editing one, are not modelled; a tick records the outcome it is given.
- Delivery.Gate.Receive: which routines an event matches, what recording each run changes, posts without an id, and dry runs.
- Redirects.Queue.Take: the lock; each operation is one step.
- Attachments, message counts, session records, search, pins, the briefing texts, model providers, policy, hooks, secrets, the store and guest machines, the terminal output and the rest of the window's script: they keep no state that these properties need.
