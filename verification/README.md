# Verified models of the scanner, pool, monitor and server samples

The repository collects study notes and code samples. This project models the samples that
carry real state and proves what they are for:

- the scanner core of the C++ linter `code/cpplint.py`: the two bracket matchers with their
  tentative `<` and `>`, the text extractor built beside them, the nesting state with its
  preprocessor checkpoints, and the removal of raw strings and block comments;
- two thread pools, a four-thread FizzBuzz monitor and a reference-counted future, each as a
  step protocol whose runs interleave freely and whose waits may end spuriously;
- the length-prefixed framing of a connection, and the slot table of a poll server.

## How the modules fit together

`BracketGrammar` says what balanced text is, as trees and with no scanner in sight.
`TentativeScan` is the stack machine both matchers share, over tokens: an angle bracket is a
mark that may be dropped. Its central result, `ScanIff`, is that a scan holding one certain
bracket ends exactly where the text closes it, for every way of reading angle brackets as
tokens that agrees with the text on `(`, `[`, `{` and their closers. `Matchers` holds the two
one-line loops and reads lines as tokens, forward or mirrored; `Spans` carries both over
whole files. `AngleCounter` says exactly what a search from a tentative bracket computes:
a depth counter with no stack; `AngleUndo` says when the two matchers undo each other from
angle brackets. `TextRoles` reads the rules for `<` and `>` off the characters: which of them
open, close or take back, and where a depth counted on the text returns to zero. `InertText`
and `InertBack` say what those rules are for: arrows, shift operators and the names of
operators are nothing to the searches, and other punctuation can stand in their place.
`SearchStops` says at which line a search stops.
`TextInside` holds two clients of the matchers, and `TemplateArguments` says on the text what
the second one decides.

`RawStrings` and `BlockComments` hold the two cleaning passes. What they do to text written
out, piece by piece, stands beside them; for block comments that is `CommentText`.

`NestingModel` gives the nesting state on values and proves what whole files do to it;
`NestingState` has the objects of the program, with blocks changed in place, deep copies at
`#if` and a shared stack at `#endif`, and every method is tied to the value model. That the
tie holds after each in-place change is the claim that a saved checkpoint never changes.
`Declarations` is a grammar of heads, blocks and forward declarations, and says which stack
files of that shape leave; `BlockDetails` says what the lines inside a block do to it.

The step protocols (`FixedPool`, `FuturePool` with `FutureShutdown`, `FizzBuzz`, `RefFuture`
with `FutureValues` and
`FutureMoves`) have one `Enabled` and one `Apply`, an invariant kept by every step, and
theorems about every run. `Accounts` holds the totals and multisets both pools count with.

## What turned out not to hold

- FizzBuzz prints past n. A role stops only after it has itself moved the counter past n, so
  the program prints up to before `Stop(n)`, for n of at least 1 at most n + 2; for such n it
  prints exactly 1 to n if and only if n mod 15 is 1, 7 or 13 (`FizzBuzz.StopsAtN`), and for
  smaller n it still prints 1. With the 23 of `main` it
  also prints 24 and 25. One role at least never returns, so the joins in `main` never all
  return (`FizzBuzz.NotAllLeave`).
- The pool with futures can leave tasks behind: a worker that reads the stop flag goes without
  a look at the queue. Every schedule drains the queue if and only if, once the flag is set, no
  commit is between its test of the flag and the mutex and there are at least as many workers
  that will still look at the queue as tasks to come (`FutureShutdown.DrainsExactly`); how many
  tasks are left is bounded on both sides, and fixed when there is no such commit
  (`FutureShutdown.LeftBehind`).
- Its destructor can wait forever: the flag is set outside the mutex, so a worker between its
  test and its sleep misses the broadcast. From any stopped state every schedule ends if and
  only if a worker in that place has a commit that has yet to get the mutex and, after the
  broadcast, a worker asleep has a commit under way (`FutureShutdown.EndsExactly`).
- `MyFuture::get` waits with `if`: after a spurious wake-up it returns a value nobody set
  (`FutureValues.EarlyGet`). A get under way cannot return early, whatever the schedule and the
  wake-ups, if and only if `value_set_` holds already (`FutureValues.NeverEarlyExactly`).
- A `>` after `operator` is meant to close no list. The forward search looks one character too
  far back, so the test works if and only if white space stands between the two
  (`InertText.AfterOperatorExactly`); a list can end in the name `operator>`
  (`InertText.EndsInOperatorName`). The backward search has the test right.
- The brace counter follows the block stack exactly as long as no `}` pops a block still
  waiting for its brace while braces are open below (`NestingModel.BraceCounter`).
- The poll server can read from a client that poll() did not report: exactly one that was
  just entered in a slot never polled before whose uninitialised events happen to be set
  (`PollTable.OthersServedExactly`, reached in `PollTable.UnreportedIsRead`).
- The framing reads more headers than it writes, among them a minus sign that asks for a
  size near 2 to the 64th (`Framing.HeaderExactly`). The written ones are exactly blanks
  followed by the shortest lower-case digits of the size (`Framing.WrittenExactly`).

## Model

| member | source | states |
|---|---|---|
| `TentativeScan.ScanSound` | code/cpplint.py:1532-1594 | where a scan ends, the text read completes every certain bracket on its stack, innermost first; under a tentative root no semicolon was read outside a group |
| `TentativeScan.ScanComplete` | code/cpplint.py:1532-1594 | conversely, text that completes the certain brackets of a stack ends the scan exactly at its end, whatever marks lie between and were dropped |
| `TentativeScan.ScanIff` | code/cpplint.py:1532-1594 | a scan holding one opener ends after n characters if and only if opener plus n characters is one balanced group, for every token reading that agrees with the text |
| `TentativeScan.ScanConcat` | code/cpplint.py:1629-1635 | scanning two pieces of text with the stack carried over is scanning them as one |
| `TentativeScan.MirroredScanIff` | code/cpplint.py:1658-1715 | the same equivalence for a backward scan: it reads the mirror image of the text |
| `BracketGrammar.MirrorBalanced` | code/cpplint.py:1641-1715 | text is balanced if and only if its mirror image, reversed with brackets exchanged, is |
| `Matchers.PopAngles` | code/cpplint.py:1553-1555 | the inner loops drop exactly the tentative brackets on top |
| `Matchers.FindEndOfExpressionInLine` | code/cpplint.py:1519-1594 | the loop over a line returns a position, a failure or a stack exactly as the token scan ends, fails or runs out |
| `Matchers.FindStartOfExpressionInLine` | code/cpplint.py:1641-1715 | the same backward, with the two-character steps over `->`, `>=` and operators |
| `Matchers.BackwardReads` | code/cpplint.py:1658-1715 | the backward tokens of a prefix read its mirror image, also where the loop steps over two characters |
| `Spans.CloseExpression` | code/cpplint.py:1597-1638 | line by line with the stack carried over: the place found, or the end of the file and -1; in either case with the line where the search stopped |
| `Spans.ReverseCloseExpression` | code/cpplint.py:1718-1753 | line by line backward: the place found, or line 0 and -1; in either case with the line where the search stopped |
| `Spans.CloseFindsSpan` | code/cpplint.py:1597-1638 | from `(`, `[` or `{` CloseExpression returns a place if and only if the text up to there is one balanced group, across lines |
| `Spans.OpenFindsSpan` | code/cpplint.py:1718-1753 | from `)`, `]` or `}` ReverseCloseExpression returns a place if and only if the text from there is one balanced group |
| `Spans.MatchersUndoEachOther` | code/cpplint.py:1519-1753 | forward from an opener reaches (l2, e) if and only if backward from (l2, e - 1) reaches that opener, for all files and places |
| `Spans.CloseGivesUp` | code/cpplint.py:1620-1638 | the forward search fails if and only if no balanced group starts at its opener |
| `Spans.OpenGivesUp` | code/cpplint.py:1733-1753 | the backward search fails if and only if no balanced group ends at its closer |
| `Spans.CloseAngle` | code/cpplint.py:1537-1594 | a match from a pushed `<` ends just after a `>`, the certain brackets inside are balanced and every semicolon inside is inside a group |
| `Spans.OpenAngle` | code/cpplint.py:1665-1712 | the same for a backward match from a pushed `>` |
| `SearchStops.CloseStopsExactly` | code/cpplint.py:1622-1638 | the line handed back is the first that settles the search, or the last of the file: up to any line before it further lines could still close the bracket, and after it no other lines change the answer; a place found is on it |
| `SearchStops.OpenStopsExactly` | code/cpplint.py:1737-1753 | the same backward, with other lines before |
| `AngleCounter.ScanIsCount` | code/cpplint.py:1532-1594 | from d tentative brackets the mixed stack, with its dropping of marks, ends exactly where a plain depth counter that steps over whole groups of certain brackets reaches zero at an accepted token |
| `AngleCounter.ScanAbove` | code/cpplint.py:1550-1568 | a scan above a certain bracket never touches what lies below before that bracket closes, and then goes on with exactly that |
| `AngleCounter.CloseAngleExactly` | code/cpplint.py:1537-1638 | from a pushed `<` the forward search returns a place if and only if the angle depth, counted outside groups, first returns to zero there, across lines |
| `AngleCounter.OpenAngleExactly` | code/cpplint.py:1665-1753 | the same backward from a pushed `>` |
| `TextRoles.OperatorExactly` | code/cpplint.py:1547-1548 | a `<` or `>` is taken to come after `operator` if and only if that word, begun at a word boundary, and white space only stand before it |
| `TextRoles.ForwardRoles` | code/cpplint.py:1535-1594 | on the characters: a `<` opens a list unless another `<` or `operator` is before it, the second of two takes the first back, a `>` may close unless it ends an arrow or the text up to one character before it ends in `operator`, and nothing else but brackets and semicolons counts |
| `TextRoles.BackwardRoles` | code/cpplint.py:1660-1713 | backward, exactly an arrow, a spaced `>=`, a `>` after `operator` and a shift operator are passed by two characters; every other `>` opens and every other `<` may close |
| `TextRoles.CloseAngleOnText` | code/cpplint.py:1597-1638 | from a `<` that opens a list CloseExpression returns a place if and only if a depth counted on the characters, over lines and with balanced groups passed whole, first returns to zero there |
| `TextRoles.OpenAngleOnText` | code/cpplint.py:1718-1753 | the same for ReverseCloseExpression from a `>` that is not passed by two |
| `TextRoles.NoSearch` | code/cpplint.py:1619-1621 | `<<`, `<=` and other characters are not searched from |
| `InertText.ArrowIsNothing` | code/cpplint.py:1573-1576 | writing any two other characters of punctuation in place of an arrow leaves every answer of CloseExpression on the file as it was |
| `InertText.OperatorLessIsNothing` | code/cpplint.py:1547-1549 | so does one in place of a `<` after `operator`, but from that `<` itself |
| `InertText.OperatorGreaterIsNothing` | code/cpplint.py:1573-1576 | and one in place of a `>` one character after `operator` |
| `InertText.ShiftIsNothing` | code/cpplint.py:1540-1546 | and two in place of a shift operator, from every bracket and every `<` that opens a list: the second `<` takes back the first |
| `InertText.NeverEndsAtOperator` | code/cpplint.py:1571-1576 | no answer of CloseExpression lies just after an arrow, or after a `>` one character after `operator` |
| `InertText.AfterOperatorExactly` | code/cpplint.py:1573-1575 | a `>` after `operator` is kept from closing a list if and only if white space stands between the two |
| `InertText.EndsInOperatorName` | code/cpplint.py:1573-1575 | without it the search ends: in `<operator>` the first character is closed by the last |
| `InertBack.PairIsNothing` | code/cpplint.py:1664-1681 | writing other punctuation in place of an arrow, a shift operator, a spaced `>=` or a `>` after `operator` leaves every answer of ReverseCloseExpression as it was, but from that `>` itself |
| `AngleUndo.AnglesUndoEachOther` | code/cpplint.py:1519-1753 | from a `<` that opens a list and a `>` the backward search starts from, forward finds the one if and only if backward finds the other, wherever both matchers take the characters between for the same brackets |
| `AngleUndo.EndsAfterContents` | code/cpplint.py:1532-1594 | a count from depth one ends at a closing bracket if and only if what it passed is a tree of plain characters, nested lists and groups |
| `AngleUndo.ContentsMirrored` | code/cpplint.py:1658-1715 | such a tree read by the one matcher is, reversed, one read by the other |
| `AngleUndo.AnglesDisagree` | code/cpplint.py:1664-1673 | on ` >= ` the two matchers differ and do not undo each other |
| `TextInside.GetTextInside` | code/cpplint.py:4600-4653 | the extractor returns the text up to before the closer exactly when the forward matcher, started with the opener on its stack, ends; otherwise None |
| `TextInside.FindClosing` | code/cpplint.py:4637-4651 | its loop ends where a scan that knows no angle brackets ends |
| `TextInside.GuessesAgree` | code/cpplint.py:4637-4653 | a scan that knows no angle brackets and one that guesses at them end at the same place or both do not end |
| `TextInside.InsideIsGroup` | code/cpplint.py:4637-4653 | that place closes the one balanced group that starts at the opener |
| `TextInside.NextRound` | code/cpplint.py:2485-2522 | one pass of the loop settles the question at the first telling character, or moves on past a closed list or to the next line |
| `TextInside.RoundAdvances` | code/cpplint.py:2483-2523 | every round of the template-argument search moves strictly forward in the file |
| `TextInside.InTemplateArgumentList` | code/cpplint.py:2473-2523 | the loop ends on every file, with the verdict of the round-by-round definition |
| `TemplateArguments.InsideExactly` | code/cpplint.py:2483-2523 | a place is judged inside if and only if one comes to one of `>`, `=`, `[`, `]` and `.`, passing over characters that tell nothing, line ends, lists closed at depth zero, and from a `<` that opens no list over the first group or list that opens later on its line |
| `NestingModel.RunIsMeaning` | code/cpplint.py:2525-2579 | over every properly nested run of conditionals, from any state, the stack is the one the first branches alone produce and the checkpoints are as before |
| `NestingModel.ElseBranchesDoNotCount` | code/cpplint.py:2525-2579 | the same as running the file without the lines from each group's first #else or #elif up to its #endif |
| `NestingModel.BraceCounter` | code/cpplint.py:2708-2744 | a counter clipped at zero follows the number of blocks whose brace was seen, over every run of tokens, if and only if no closing brace ever misses |
| `NestingModel.ConsumeCounts` | code/cpplint.py:2714-2743 | one token keeps the counter in step if and only if it is no such closing brace |
| `NestingModel.BraceCounterMisses` | code/cpplint.py:2739-2743 | the stack after a line with a namespace brace and a class head; a closing brace then pops the class, and the counter is wrong |
| `Declarations.DeclarationsLeaveState` | code/cpplint.py:2629-2744 | any file of declarations, heads with bodies and plain blocks, nested as they may be and cut into lines anywhere, leaves the state it found: a head that meets `;` or `)` is gone, a block is gone with its `}` |
| `Declarations.HeadThenBody` | code/cpplint.py:2714-2720 | a head, its brace and a body not yet closed leave that head on top with its brace seen, and nothing else changed |
| `Declarations.BraceThenBody` | code/cpplint.py:2721-2726 | a brace that belongs to no head leaves a block of its line, of the kind the text before it says |
| `BlockDetails.LinesInside` | code/cpplint.py:2604-2689 | over any lines inside a block its parentheses are the sum over the lines, a class has the last access keyword and is derived if and only if it was or a lone colon came before its brace; all else stays |
| `BlockDetails.ClassHeadStarts` | code/cpplint.py:2654-2674 | a class head starts a block if and only if no parenthesis is open; a struct starts out public, a class private |
| `BlockDetails.NamespacesStart` | code/cpplint.py:2629-2647 | leading namespaces start one block each, in order, with their braces seen or not |
| `BlockDetails.AsmExactly` | code/cpplint.py:2606-2627 | after any lines inside a block it is in inline assembly if and only if some line that looks like it has brought the open parentheses to one and they have not been all closed since; it is at the end of one if and only if the last line has closed them |
| `BlockDetails.AsmBlockStays` | code/cpplint.py:2611-2627 | a block opened as assembly stays so |
| `BlockDetails.StrayDirective` | code/cpplint.py:2562-2579 | an #else, #elif or #endif outside any group counts as any other line |
| `NestingState.CopyStack` | code/cpplint.py:2549-2561 | a deep copy shows the same blocks in objects of its own |
| `NestingState.NestingStack.SaveAtIf` | code/cpplint.py:2546-2549 | #if adds a checkpoint of the stack, in fresh objects |
| `NestingState.NestingStack.RollBackAtElse` | code/cpplint.py:2550-2564 | #else and #elif keep the first branch's stack once and go on from a copy of the stack before the #if |
| `NestingState.NestingStack.RestoreAtEndif` | code/cpplint.py:2565-2579 | #endif takes the first branch's stack over without a copy and drops the checkpoint |
| `NestingState.NestingStack.UpdatePreprocessor` | code/cpplint.py:2525-2579 | the new stack and checkpoints are those of the value model; blocks and checkpoints stay separate objects |
| `NestingState.NestingStack.TopChanged` | code/cpplint.py:2608-2627 | changing the innermost block in place alters no other block and no saved checkpoint |
| `NestingState.NestingStack.CountInTop` | code/cpplint.py:2606-2627 | parentheses and inline assembly are counted in the innermost block, in place |
| `NestingState.NestingStack.PushNamespaces` | code/cpplint.py:2629-2647 | leading namespace declarations are pushed in order, each with or without its brace |
| `NestingState.NestingStack.PushClass` | code/cpplint.py:2654-2674 | a class head is pushed unless parentheses are open |
| `NestingState.NestingStack.InspectTop` | code/cpplint.py:2678-2689 | derivation and access of the innermost class are updated in place |
| `NestingState.NestingStack.ConsumeToken` | code/cpplint.py:2714-2743 | one of `{`, `}`, `;`, `)` marks, pushes or pops as in the value model |
| `NestingState.NestingStack.UpdateLine` | code/cpplint.py:2582-2744 | a whole line as in the value model; `previousStackTop` is the object that was on top before it, or null |
| `NestingState.NestingStack.UpdateAll` | code/cpplint.py:2582-2744 | a whole file: the object state is the value model's run, so RunIsMeaning speaks about it |
| `RawStrings.CleanseRawStrings` | code/cpplint.py:1288-1361 | the two loops terminate and compute the line-by-line definition with its pending terminator |
| `RawStrings.RemoveFromLine` | code/cpplint.py:1328-1355 | the inner loop ends because each removal on the line makes it shorter |
| `RawStrings.CleanseIdempotent` | code/cpplint.py:1308-1361 | cleansing twice is cleansing once, and the number of lines is kept |
| `RawStrings.CleanseIsQuiet` | code/cpplint.py:1328-1357 | no line of the result has a raw string left that the search would remove |
| `RawStrings.QuietStays` | code/cpplint.py:1339-1355 | lines without raw strings are left as they are |
| `RawStrings.OpeningFound` | code/cpplint.py:1339-1343 | a prefix, quote, delimiter and parenthesis after a word boundary are recognised with exactly that delimiter |
| `RawStrings.WrittenOut` | code/cpplint.py:1339 | every such opening written into a text is one, whatever surrounds it |
| `RawStrings.OpensExactly` | code/cpplint.py:1339 | and nothing else is recognised: an opening is exactly a prefix at a word boundary, a quote, a delimiter without blanks, backslashes and parentheses, and a parenthesis |
| `RawStrings.KeptExactly` | code/cpplint.py:1339-1355 | a line outside raw strings is kept as it is if and only if nothing opens on it or its first opening is in a comment |
| `RawStrings.StayingLine` | code/cpplint.py:1328-1357 | in a file such a line stays, and cleansing goes on after it as if it were not there |
| `RawStrings.CommentedLiteral` | code/cpplint.py:1339-1342 | a raw string written out after a comment mark stays, whether or not it ends on its line |
| `RawStrings.NeverClosed` | code/cpplint.py:1314-1357 | a raw string that is never closed turns the rest of the file into quotes |
| `RawStrings.LeftmostFound` | code/cpplint.py:1339-1345 | on a line with a raw string written out and no opening before it, the search finds that raw string, its delimiter and its body |
| `RawStrings.OneLineLiteral` | code/cpplint.py:1339-1350 | a file with a raw string written out on one line, not in a comment and ended by the first terminator, cleanses as the file with `""` in its place |
| `RawStrings.LiteralRemoved` | code/cpplint.py:1308-1357 | a raw string written out over many lines: `""` at its start, one `""` per line between, and its indentation, `""` and the rest on its last line |
| `RawStrings.FindIsFirst` | code/cpplint.py:1313 | the search for a terminator finds its first occurrence |
| `BlockComments.FindNextMultiLineCommentStart` | code/cpplint.py:1364-1372 | the first line at or after the given one that starts a multi-line comment, or the number of lines |
| `BlockComments.FindNextMultiLineCommentEnd` | code/cpplint.py:1375-1381 | the first line at or after the given one that ends one, or the number of lines |
| `BlockComments.RemoveMultiLineCommentsFromRange` | code/cpplint.py:1384-1389 | the lines of the range are blanked, the others untouched |
| `BlockComments.RemoveMultiLineComments` | code/cpplint.py:1392-1405 | the list in place becomes what a one-pass automaton says: lines of closed comments blanked, all others untouched; an open comment is reported by its first line |
| `BlockComments.NoCommentLeft` | code/cpplint.py:1392-1405 | if nothing is reported, no line of the result starts a multi-line comment |
| `BlockComments.TreatedTwice` | code/cpplint.py:1392-1405 | a second run changes nothing and reports the same |
| `CommentText.StartsExactly` | code/cpplint.py:1367-1370 | a line starts a multi-line comment if and only if it is blanks, an opening mark and text with no closing mark |
| `CommentText.EndsExactly` | code/cpplint.py:1378 | a line ends one if and only if only blanks follow a closing mark |
| `CommentText.PlainLine` | code/cpplint.py:1392-1405 | a line outside comments that starts none stays, and the rest is treated apart |
| `CommentText.WholeComment` | code/cpplint.py:1384-1405 | a comment from its opening line to the first line that ends one becomes that many empty comments, and the rest is treated apart |
| `CommentText.OpenComment` | code/cpplint.py:1398-1403 | one that is never ended is reported by its first line and changes nothing |
| `FixedPool.NoStrandedWork` | code/concurrent/threadpool.cpp:21-34 | in every reachable state with a worker, queued work has an awake worker or a submitter yet to notify |
| `FixedPool.ExactlyOnceInOrder` | code/concurrent/threadpool.cpp:23-28 | submissions are queued, in flight or done, each exactly once, and are taken in order of submission |
| `FixedPool.RestMeansDone` | code/concurrent/threadpool.cpp:21-58 | a state with no step left but spurious wake-ups, new calls and the destructor has run everything if and only if there is a worker or nothing was submitted |
| `FixedPool.StepAfterBroadcast` | code/concurrent/threadpool.cpp:42-50 | after the broadcast every step lowers the remaining work and leaves no worker asleep |
| `FixedPool.ShutdownDrains` | code/concurrent/threadpool.cpp:22-50 | from the broadcast on every run is bounded, and one that cannot go on has all workers gone and all tasks done |
| `FixedPool.ReachableInv` | code/concurrent/threadpool.cpp:21-58 | the mutex has one holder, a worker exits only after the flag and with an empty queue, in every reachable state |
| `FuturePool.ExactlyOnceInOrder` | code/boost_doc/Function/threadpool.cpp:37-108 | commits past their push are queued, in flight or answered, each exactly once, and are taken in order |
| `FuturePool.FutureStates` | code/boost_doc/Function/threadpool.cpp:86-108 | a future is ready exactly when its task was taken and no worker still has it, never twice; it is broken exactly when the pool is gone and left it queued |
| `FuturePool.IdleCount` | code/boost_doc/Function/threadpool.cpp:60-62 | the idle counter is the pool size minus the workers between decrement and increment |
| `FuturePool.NoStrandedWork` | code/boost_doc/Function/threadpool.cpp:45-58 | before the stop, queued work has a worker that will look at the queue or a commit yet to notify, in every reachable state |
| `FuturePool.RestBeforeStop` | code/boost_doc/Function/threadpool.cpp:45-108 | a pool at rest before its stop has an empty queue and has answered every future |
| `FutureShutdown.RunsEndAfterStop` | code/boost_doc/Function/threadpool.cpp:45-77 | after the stop every run is bounded, spurious wake-ups included, but for commits that throw |
| `FutureShutdown.LeftBehind` | code/boost_doc/Function/threadpool.cpp:45-77 | over every run from a stopped state to the end, the fewest and the most tasks left behind, and the exact number when no commit is between its test and the mutex |
| `FutureShutdown.DrainsExactly` | code/boost_doc/Function/threadpool.cpp:45-105 | a stopped pool runs every task in every schedule if and only if no commit is between its test and the mutex and the tasks to come are at most the workers that will still look |
| `FutureShutdown.CanComeTooLate` | code/boost_doc/Function/threadpool.cpp:88-105 | with a commit between its test and the mutex some schedule always leaves a task behind |
| `FutureShutdown.CanEnd` | code/boost_doc/Function/threadpool.cpp:45-77 | from every stopped state some schedule reaches the end of the pool |
| `FutureShutdown.EndsExactly` | code/boost_doc/Function/threadpool.cpp:68-77 | from every stopped state, every schedule that cannot go on has ended the pool if and only if each worker between its test and its sleep, and after the broadcast each sleeper, still has a commit that will notify it |
| `FutureShutdown.AwakeExactly` | code/boost_doc/Function/threadpool.cpp:50-71 | from a stopped state on nobody ever sleeps if and only if no worker sleeps or is between its test and its sleep |
| `FutureShutdown.LostWakeUp` | code/boost_doc/Function/threadpool.cpp:68-77 | a reachable state in which the destructor waits for a sleeping worker nobody will wake |
| `FutureShutdown.LeavesTasksBehind` | code/boost_doc/Function/threadpool.cpp:45-56 | a reachable end of the pool with a task never run |
| `FizzBuzz.ExactlyOneGuard` | code/concurrent/order_print.cpp:14-17 | for every value exactly one of the four guards holds, and its role prints what the rules of the game demand |
| `FizzBuzz.SafeAndBounded` | code/concurrent/order_print.cpp:37-90 | in every interleaving the log is the FizzBuzz sequence up to the counter, and the counter never exceeds max(n, 1) + 3 |
| `FizzBuzz.FourConsecutive` | code/concurrent/order_print.cpp:14-17 | no four consecutive integers need four different roles |
| `FizzBuzz.StopIsFirstRepeat` | code/concurrent/order_print.cpp:44 | the stopping value is the first whose role has already printed a value from max(n, 1) on |
| `FizzBuzz.RestsAtStop` | code/concurrent/order_print.cpp:37-90 | no deadlock before the end: a run that cannot go on has the counter at the stopping value and has printed everything below it |
| `FizzBuzz.RunsEnd` | code/concurrent/order_print.cpp:37-90 | without spurious wake-ups every run is finite, with an explicit bound |
| `FizzBuzz.NotAllLeave` | code/concurrent/order_print.cpp:104-105 | at every moment some role has not left its loop |
| `FizzBuzz.StopsAtN` | code/concurrent/order_print.cpp:44 | the output ends at n if and only if n + 1 falls to the role that printed n, that is n mod 15 is 1, 7 or 13 |
| `RefFuture.CountIsOwners` | code/concurrent/MyFuture.cpp:15-91 | in every interleaving of create, copy, move and destroy the count is the number of handles at the object, it is deleted at most once, and no handle points at a deleted one |
| `RefFuture.NoUseAfterFree` | code/concurrent/MyFuture.cpp:59-91 | no step touches a deleted object, the delete itself included |
| `RefFuture.DeletedExactlyOnce` | code/concurrent/MyFuture.cpp:87-91 | when the handles are gone every inner object has been deleted exactly once |
| `FutureValues.GetAfterSet` | code/concurrent/MyFuture.cpp:38-52 | where only notify_all ends a wait, no get returns before a set |
| `FutureValues.ValuesComeFromSets` | code/concurrent/MyFuture.cpp:31-52 | with any wake-ups, a value returned was set on that object, and an emptied slot is returned only after a move |
| `FutureValues.MovedOutOnce` | code/concurrent/MyFuture.cpp:31-44 | at most one move takes each set value, and what is in the slot is the last value set |
| `FutureMoves.ReturnEffect` | code/concurrent/MyFuture.cpp:38-52 | a get returns what is in the slot; by copy it leaves the slot as it is, otherwise it leaves it emptied, and it changes nothing else |
| `FutureMoves.SlotChanges` | code/concurrent/MyFuture.cpp:31-52 | a slot changes only by a set, to its value, or by a get without copy that returns a value |
| `FutureMoves.TakenIsMoves` | code/concurrent/MyFuture.cpp:38-44 | over every run the values moved out of an object are as many as the gets without copy that returned a value from it |
| `FutureMoves.CopiesUseNothingUp` | code/concurrent/MyFuture.cpp:46-52 | over every run, where no get without copy has returned a value from an object, no get has returned its emptied slot |
| `FutureValues.NoneSleepsOnceSet` | code/concurrent/MyFuture.cpp:31-52 | no get sleeps on an object that has been set |
| `FutureValues.NeverEarlyExactly` | code/concurrent/MyFuture.cpp:38-52 | a get under way cannot return an unset value, over every continuation of the run, if and only if its object is set already |
| `FutureValues.EarlyGet` | code/concurrent/MyFuture.cpp:40-43 | a run in which a spurious wake-up does that |
| `Framing.SentExactly` | code/boost_doc/IO/connection.hpp:60-71 | a payload is sent if and only if it is shorter than 16 to the 8th bytes, in 8 bytes more than its size |
| `Framing.HeaderRoundTrip` | code/boost_doc/IO/connection.hpp:109-118 | every size formatted is read back, and refused if it does not fit 64 bits |
| `Framing.FrameRoundTrip` | code/boost_doc/IO/connection.hpp:60-128 | a message is received whole, whatever follows it |
| `Framing.CutFrameWaits` | code/boost_doc/IO/connection.hpp:109-128 | every proper prefix of a message is recognised as unfinished |
| `Framing.PrefixFree` | code/boost_doc/IO/connection.hpp:60-78 | no message is a proper prefix of another, and different payloads differ on the wire |
| `Framing.StreamRoundTrip` | code/boost_doc/IO/connection.hpp:60-128 | every list of payloads that fit arrives as that list, and what follows is read as if it came alone |
| `Framing.CutStream` | code/boost_doc/IO/connection.hpp:100-130 | a stream cut inside its next message yields exactly the messages before |
| `Framing.ObjectsRoundTrip` | code/boost_doc/IO/connection.hpp:54-58 | with any archive that restores what it saved, a list of objects arrives as that list |
| `Framing.HeaderExactly` | code/boost_doc/IO/connection.hpp:109-118 | every header: blanks, a sign, a base, digits and anything else are read as the number of the digits, after a minus sign modulo 2 to the 64th; without digits, or with a number too large for the type, it is refused |
| `Framing.DigitsExactly` | code/boost_doc/IO/connection.hpp:110-112 | the digits are the sixteen, in either case |
| `Framing.WrittenExactly` | code/boost_doc/IO/connection.hpp:60-71 | of the 8-byte headers, those written, and those read back to themselves, are exactly blanks followed by the shortest lower-case digits of a number |
| `Framing.Connection.AsyncWrite` | code/boost_doc/IO/connection.hpp:52-79 | the fields and bytes of a message sent; a refused one has overwritten the data field and not the header |
| `Framing.Connection.HandleReadHeader` | code/boost_doc/IO/connection.hpp:100-130 | the size asked for and the resized buffer, or an error and an untouched buffer |
| `Framing.Connection.AsyncRead` | code/boost_doc/IO/connection.hpp:83-162 | both reads of a message, as the stream decoder says |
| `Framing.Transfer` | code/boost_doc/IO/connection.hpp:52-162 | an object that fits and is written by one connection is delivered by another |
| `PollTable.EveryClientWatched` | code/network/IO/multiplexing/via_poll/server.cpp:71-125 | over every run slot 0 is the listener, the open clients are exactly the occupied slots among 1 to maxi, each in one slot, and nothing lies above |
| `PollTable.MaxiIsLargest` | code/network/IO/multiplexing/via_poll/server.cpp:119-120 | maxi is the largest number of clients open at once so far |
| `PollTable.ExitsExactlyWhenFull` | code/network/IO/multiplexing/via_poll/server.cpp:112-116 | the server gives up if and only if a client arrives while 999 are open |
| `PollTable.ReportedAreServed` | code/network/IO/multiplexing/via_poll/server.cpp:81-125 | in a pass after which the server goes on, every reported client is read if and only if accept() was not interrupted or there was nobody to read; the early end of a pass loses nobody, also when the count includes error reports |
| `PollTable.OthersServedExactly` | code/network/IO/multiplexing/via_poll/server.cpp:118-139 | who else is read: exactly a new client in a slot never polled before with stale events |
| `PollTable.UnreportedIsRead` | code/network/IO/multiplexing/via_poll/server.cpp:81-139 | it happens: a run with one client, and a pass that reads a second one unreported |
| `PollTable.PassKeepsInv` | code/network/IO/multiplexing/via_poll/server.cpp:78-126 | a whole pass keeps the invariant of the table |
| `PollTable.PassMovesExactly` | code/network/IO/multiplexing/via_poll/server.cpp:78-155 | in a pass after which the server goes on a client leaves if and only if it was read and its read returned 0; the others keep their descriptors, and of the free slots exactly the lowest is filled, exactly when a client arrives |
| `PollTable.PassGoesOnExactly` | code/network/IO/multiplexing/via_poll/server.cpp:88-116 | the server goes on unless accept() fails or a client arrives while 999 are open |
| `PollTable.Server.constructor` | code/network/IO/multiplexing/via_poll/server.cpp:71-76 | the table starts with the listener and no clients |
| `PollTable.Server.FindSlot` | code/network/IO/multiplexing/via_poll/server.cpp:104-111 | the loop finds the first free slot |
| `PollTable.Server.AddClient` | code/network/IO/multiplexing/via_poll/server.cpp:104-120 | the table after an accept, or no change when it is full |
| `PollTable.Server.HandleConnections` | code/network/IO/multiplexing/via_poll/server.cpp:129-155 | exactly the marked clients are read; of the occupied slots exactly those read with 0 bytes are freed, the others keep their descriptors |
| `PollTable.Server.Round` | code/network/IO/multiplexing/via_poll/server.cpp:78-126 | one pass of the loop is the pass of the value model |

## Left out

- The style checks of cpplint, its file, path, configuration and command-line handling, and the errors its block objects report: heuristics and input or output with no further specification.
- `_CollapseStrings` and single-line comment removal: not needed by any result here; the test for being inside a `//` comment is an arbitrary predicate on the line before the raw string.
- Pattern matching on whole lines in `NestingState.Update`: a line arrives as what the patterns found in it, and whether a class head is a template argument is part of that; class names, indentation and the last line of a class are not kept.
- `previous_stack_top`: kept as a reference, as in the program; no result is stated about its contents.
- Checkpoint records are values holding lists of block objects; the blocks are objects, the records are not.
- Lines contain no line feed and patterns use the ASCII classes.
- InTemplateArgumentList: a remainder of a line without a telling character is treated as the pattern does after backing up, which always ends the line.
- Which `<` and `>` count as brackets at all is a guess of the program; the results say which ones they are on the text and what the searches make of them, not that C++ reads them so.
- Memory ordering: atomic operations are single sequentially consistent steps.
- Fairness: the protocols say what every run keeps and that runs without spurious wake-ups end; that a run goes on is not claimed.
- FixedPool: the destructor starts only when no execute() call is under way, tasks submit nothing and end; moved-from and default-constructed pools are not modelled.
- FuturePool: the end of the destructor waits for commits under way as well as for the threads; in the program a commit that is still running then touches a destroyed pool.
- FuturePool: under the mutex the wait condition, the test for leaving and the pop are one step; tasks that throw are not modelled, the exception goes to the future.
- FizzBuzz: the counter is unbounded, so n must be at most the largest int minus 3 in the program; the thread identifiers printed at the end are not part of the log.
- RefFuture: the critical sections of set and get are one step each; handles are used within the rules of the language, and a moved-from handle is not copied, set or read.
- Framing: the text archive is opaque, an allocation that fails for a huge announced size is not modelled, and a text archive is never empty.
- PollTable: errors of poll() end the program and are not modelled; the bytes echoed back are not modelled; a descriptor returned by accept() is not one that is open.
- The other samples: the remaining concurrency samples are broken or easier versions of the same properties, the select and epoll servers and the Boost samples are library use, the notes are prose.
