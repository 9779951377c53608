# mdcmux: a verified model

mdcmux is a multiplexing proxy for the line-based Machine Data Collection
protocol of a machine control. This project models its five interlocking parts
and proves how they behave, one by one and composed:

- the wire codec: numbers, commands, responses, prompt framing
  (`Bytes`, `Decimal`, `Patterns`, `Numbers`, `Commands`, `Grammar`, `Truncation`,
  `Responses`, `Wire`);
- the canonicalizing weak map behind basic commands (`CanonicalMap`);
- the shared backend connection: as an object (`Connection`, `Buffers`), and as a
  system of steps with callers, a mutex, a one-slot channel, a goroutine for each
  dial, timers, partial reads and failures (`Conn`, `ConnShape`, `ConnPairing`,
  `ConnProgress`, `ConnExamples`);
- the proxy: policies, reconfiguration of listeners and routes, one pass and whole
  runs of passes, the loop over a client's messages (`Policies`, `Reconfigure`,
  `Generations`, `Session`);
- the dummy machine, which closes the end-to-end theorems (`Dummy`).

Other modules compose them:

- `Registers` and `Clients`: macro variables are linearizable registers, for reads
  and writes, with `LateEffects` and `RegisterExamples` for what a call can still do
  after it has ended;
- `Confinement`: no macro variable changes but through a write its policy allows,
  with `PassSteps` (the passes of the proxy are steps of that program) and `Proxied`
  (behind the proxy the registers are linearizable too);
- `Transparency`: a client of the proxy sees what a client of the machine sees, with
  `Timeouts` (when it is slow) and `SharedConnection` (the calls of the concurrent
  connection get what that reference says).

## How the model is built

A byte is a `char`; grammars are ASCII. Integers are unbounded except where the
program parses into 64 bits: `Int64` and the range error of `ParseInt` are
explicit. A regular expression is a syntax tree with a declarative relation
`Patterns.Matches` between a text and its captures; the parsers use
deterministic recognizers that are proved to compute exactly that relation.

Objects the program updates in place are classes: the weak map, the writer, the
scanner with its array, the connection, channel and socket, targets and
configurations, listeners, routes and the proxy's tables, the dummy server. Each
method is proved against a function of the old state, and the promises are
proved about that function.

Concurrency is a list of steps, each enabled in the state it finds. `After(run)`
is the state after a list of steps, if every step was enabled, and the theorems
quantify over all such lists. Code that runs between two blocking points with
the mutex held is one step. Sockets, clocks, timers, garbage collection,
cancelled contexts, dial errors, write errors and read errors are steps or
parameters that may occur at any time. An end of input and a read error are one
kind of fault, since the scanner and its callers treat them alike.

An address is the list of its bits, so that byte order is lexicographic order of
bits and a prefix contains an address when the leading bits agree (section 3.1 of
RFC 4632). A map visited in Go's random order is visited in any order.

## What does not hold, and exactly when

- `Numbers.NumericFidelity`: a number keeps its fraction as a plain integer, so
  `1.05` is printed as `1.5` and `-0.5` as `0.5` (`Numbers.FidelityFails`). The
  printed value is the one that was read if and only if the fraction is empty or
  all zeros, or its first digit is not zero and the text is not a minus sign on a
  zero whole part.
- `ConnPairing.ResponsePairing`: a read that fails in the middle of an answer
  leaves a partial last token, and `RoundTrip` succeeds with it. The machine may
  answer 12.5 and the caller be told 1 (`ConnExamples.HalfAnAnswer`). A response
  is the parse of the whole answer to its own command if and only if no read failed
  during the call or, when one did, the scanner held the two prompts and all of the
  answer, and also the carriage return if the answer itself ends in one
  (`ConnPairing.Complete`). The same condition governs linearizability and
  `SharedConnection.ReturnsReference`.
- `ConnShape.ExactStuckStates`: a caller can wait forever at the keep-alive send,
  with the mutex held, when the idle timer fires at the wrong moment
  (`ConnExamples.StuckIsReachable`), and only then. Everyone behind it waits forever
  too, and some of them already before the send is reached
  (`ConnProgress.ExactProgress`): a call that holds the mutex or waits for it can
  still end if and only if it is not so that the channel is full, its goroutine has
  taken the timer arm, and the holder has entered, is at the send, or has some of
  the answer to the handshake in hand.
- `Policies.TargetPolicyApplies`, `Policies.ShorterPrefixWins`,
  `Policies.ShadowedPolicy`, `Policies.ReadmeExample`: the comment at `internal/proxy/config.go:62` and the
  README (`README.md:91-95`) say that the policies of a target come first. The
  sort is ascending and the first match wins, so a base policy wins over one of
  the target, and a short prefix over a long one. With the README's own
  configuration no client ever gets the write policy.
- `Reconfigure.Proxy.Reconfigure`: a pass fails exactly when some address is
  refused, taken, or wanted by two targets and not yet listened on. It has then
  refilled the routes of every target visited before the one that failed, and has
  left a new listener open on each of their addresses that was not held before
  (`Generations.FailureStrands`). Such a listener is closed by no later pass and
  makes every later configuration that wants its address fail
  (`Generations.StrandedForever`). Two targets on one port are enough: the
  corrected configuration fails too (`Generations.LeakedForGood`).
- `Wire.FramingRoundTrip`: framing carries a payload if and only if it is not
  empty, has no line feed and does not start with `>`. A token of nothing but
  prompts is left as it is.
- `Commands.CommandRoundTrip`: a command survives printing and parsing if and only
  if the parser can produce it.
- `Truncation.CutReparses`: a command cut short on a broken connection is parsed as
  the command that was sent if and only if it lacks no more than the line feed and,
  after a zero fraction, the point and the zero. Otherwise the cut of a write may
  still be a write, with its variable intact and its value shortened: 12.5 becomes
  1 (`Truncation.ShortenedWrite`, `Truncation.CutWrite`).
- `Timeouts.SlowClient`: the proxy's read deadline of a tenth of a second throws
  away the line begun so far. Nothing is ever forwarded that the client did not
  write, but a command interrupted in front of its line feed is lost without a word
  (`Timeouts.LostCommand`), and one interrupted before that ends the session. All
  commands are taken up if and only if no timeout falls strictly inside one.
- `LateEffects.LateEffect`: a call that has failed may have its write stored
  afterwards (`RegisterExamples.LateWrite`). Once a call is over, its command can
  still be taken by the machine in some continuation if and only if some of it is on
  a socket and has not been taken yet; it can still be carried out as it was sent if
  and only if enough of it is (`LateEffects.LateCommand`). A call leaves some of its
  command on a socket exactly when it fails waiting for the command's own answer, or
  writing the command after at least one byte (`LateEffects.FailureLeaves`); any
  other failed call never takes effect (`LateEffects.NeverTaken`).

## Model

| member | source | states |
|---|---|---|
| `Bytes.TrimSpaceTight` | pkg/dummy/dummy.go:199 | trimming leaves nothing to trim on either side, so a line is blank or starts with a visible byte |
| `Bytes.TrimSpaceOf` | pkg/dummy/dummy.go:199 | what is trimmed is white space on either side and nothing else |
| `Decimal.NumeralRoundTrip` | pkg/message/number.go:148-153 | the decimal digits printed for a natural number denote that number |
| `Decimal.NumeralOfValue` | pkg/message/number.go:84-90 | printing the value of a digit string gives the string back when no zero leads it |
| `Decimal.ParseIntRoundTrip` | pkg/message/number.go:84-93 | every 64-bit integer survives printing and parsing, the least one included |
| `Decimal.PrintShape` | pkg/message/number.go:148-153 | a printed integer is a sign exactly when negative, then the digits of its magnitude, and denotes the integer |
| `Decimal.SignedDigits` | pkg/message/number.go:84-93 | a minus in front of digits negates their value and a plus leaves it |
| `Patterns.NumberUnambiguous` | pkg/message/number.go:36-38 | a text matches the number pattern with some captures if and only if the left-to-right recognizer returns exactly those captures |
| `Patterns.QueryUnambiguous` | pkg/message/query.go:34-36 | the same for the query pattern, although its adjacent gaps can share out white space in many ways |
| `Patterns.WriteUnambiguous` | pkg/message/write.go:33-35 | the same for the write pattern |
| `Numbers.ParseParts` | pkg/message/number.go:69-97 | parsing an amount given as sign, digits and fraction depends on the values of the parts only, and fails exactly on 64-bit overflow of one of them |
| `Numbers.NumberRoundTrip` | pkg/message/number.go:69-97 | parsing the printed form of any number, all 64-bit whole parts and fractions and NaN, gives it back |
| `Numbers.NumericFidelity` | pkg/message/number.go:88-96 | for every accepted text, printing denotes the same decimal value if and only if the stated condition on fraction and sign holds |
| `Numbers.FidelityFails` | pkg/message/number.go:141-162 | the two concrete losses: 1.05 becomes 1.5 and -0.5 becomes 0.5 |
| `Grammar.NumberText` | pkg/message/number.go:69-97 | for every sign, digits and fraction: parsed as the value of the digits, the whole part negated by a minus only, or an overflow exactly beyond the 64-bit limits |
| `Grammar.PlusSign` | pkg/message/number.go:69-97 | a plus sign in front of digits and a fraction changes nothing |
| `Grammar.NumberErrors` | pkg/message/number.go:69-83 | a text is empty, NaN or of invalid format exactly when its trimmed form is empty, `NaN`, or matched by the pattern in no way |
| `Grammar.NumberForm` | pkg/message/number.go:69-97 | every other text is a sign, digits and a fraction, and is parsed as such |
| `Grammar.DenotesText` | pkg/message/number.go:36-38 | the decimal a text denotes is that of its digits, all of it negated by a minus, unchanged by a plus |
| `Grammar.TenthParts` | pkg/message/number.go:36-38 | each digit after the point counts a tenth of the one before |
| `Commands.ParsedIsWellFormed` | pkg/message/message.go:128-187 | every accepted text yields a non-negative whole command number other than 600, a query of a non-negative variable, or a write to a non-negative integer variable |
| `Grammar.WriteText` | pkg/message/message.go:136-158 | every text of the form of a write is the write of the number of its variable's digits to that of its signed amount, or the overflow of one of them |
| `Grammar.WriteForm` | pkg/message/write.go:33-35 | every text after `?E` that is not refused for its format has that form |
| `Grammar.BareText` | pkg/message/message.go:160-182 | a query by number alone is that basic command, and an error for 600 |
| `Grammar.QueryText` | pkg/message/message.go:160-182 | a variable after the number counts for 600 only |
| `Grammar.QueryForm` | pkg/message/query.go:34-36 | every text after `?Q` that is not refused for its format has one of these two forms |
| `Grammar.OtherText` | pkg/message/message.go:128-187 | every other text is refused for its length, its first or its second byte |
| `Commands.CommandRoundTrip` | pkg/message/message.go:128-187 | printing a command and parsing it, with or without the line feed, gives it back if and only if the parser can produce it |
| `Commands.PrintingIsNormalForm` | pkg/message/query.go:77-80 | for every accepted text, parse after print after parse equals parse |
| `Commands.LineClean` | pkg/message/basic.go:79-82 | a printed command is one line of at least three bytes that starts with a question mark and has nothing to trim |
| `Commands.TruncatedWrite` | pkg/message/write.go:70-73 | any beginning of a printed command that parses as a write is a beginning of a write to the very same variable |
| `Truncation.CutReparses` | pkg/message/write.go:70-73 | any beginning of a well-formed command's text, cut at any byte, parses to that command if and only if it lacks no more than the line feed and, after a zero fraction, the point and the zero |
| `Truncation.CutWrite` | pkg/message/write.go:70-73 | a beginning of a write is no command up to the first digit of its value; from there on it is always a write of the same variable, to exactly the number that the digits so far denote |
| `Truncation.ShortenedWrite` | pkg/message/write.go:70-73 | a concrete cut: five bytes of a write of 12.5 are a write of 1 |
| `Responses.ReportedValue` | pkg/message/query.go:63-73 | a value reported by a machine for a macro variable is read back exactly, NaN included |
| `Responses.RelayIsTransparent` | pkg/message/query.go:101-104 | interpreting a relayed response again gives the same response, for every command and every payload |
| `Responses.MacroFields` | pkg/message/query.go:63-73 | a labelled payload splits into its label and its value |
| `Responses.QueryAnswer` | pkg/message/query.go:63-73 | an answer of two fields of which the second is a number is that value, and of which it is not a failure |
| `Responses.OnlyQueryAnswer` | pkg/message/query.go:63-73 | every value comes from such an answer, and every other answer is passed on as a failure |
| `Responses.OtherAnswers` | pkg/message/write.go:64-66 | a write has succeeded if and only if the answer is an exclamation mark; a basic command is never known to |
| `Wire.ScanPrompt` | pkg/message/wire.go:46-58 | the loop over the token computes the split function: one line without its carriage return and leading prompts, or whole if it is nothing but prompts |
| `Wire.ChunkIndependence` | pkg/message/wire.go:46-58 | a scanner that is kept yields the same tokens however the stream is cut into reads |
| `Wire.LonePrompt` | pkg/message/wire.go:51-56 | a token that is a single prompt is not stripped |
| `Wire.WritePrompt` | pkg/message/wire.go:61-66 | what was buffered and a prompt are sent, or as much of it as the connection takes, and nothing once a write has failed |
| `Wire.WriteResponse` | pkg/message/wire.go:70-81 | the same for what was buffered and one frame: prompt, payload, line end, next prompt |
| `Wire.FramingRoundTrip` | pkg/message/wire.go:46-81 | greeting and frames of any payloads, cut into any reads and scanned, give those payloads and then a lone prompt if and only if each payload is framable |
| `Wire.LinesOfTexts` | pkg/dummy/dummy.go:198-204 | texts written one after the other, of which only the last may lack its line feed, arrive as their lines |
| `CanonicalMap.CMap.Get` | pkg/message/cmap.go:56-84 | without interference, returns the live object of the key and changes nothing, or enters and returns the new one |
| `CanonicalMap.CMap.Peek` | pkg/message/cmap.go:86-100 | finds the object of a key exactly when there is an entry whose object still lives |
| `CanonicalMap.CMap.Cleanup` | pkg/message/cmap.go:47-54 | deletes the entry of its key only while that entry is still its own |
| `CanonicalMap.Canonicity` | pkg/message/cmap.go:56-100 | after any run of fast paths, slow paths, collections and late cleanups, two references handed out are the same object if and only if they are for the same key |
| `CanonicalMap.GetReturnsKey` | pkg/message/cmap.go:56-84 | what a lookup returns lives, has the key asked for and is in the map |
| `CanonicalMap.NoLeak` | pkg/message/cmap.go:81-82 | after any run, an entry whose object is dead still has its cleanup to come |
| `CanonicalMap.NoStaleDelete` | pkg/message/cmap.go:47-54 | a cleanup leaves every live object findable and deletes an entry exactly when it is its own |
| `CanonicalMap.QuiescentMap` | pkg/message/cmap.go:46-84 | once no dead object awaits cleanup, the map is exactly the live objects by their keys |
| `CanonicalMap.Documentedness` | pkg/message/basic.go:52-67 | in every run after package initialisation, a basic command handed out is safe if and only if its number is documented or 600, whatever was collected |
| `CanonicalMap.FastPathCanLose` | pkg/message/cmap.go:59-63 | a run in which the weak pointer read on the fast path is dead when followed, so that the slow path is taken |
| `Policies.AllowWrite` | internal/proxy/config.go:137-144 | true if and only if some listed pair holds the number, ends included |
| `Policies.Allow` | internal/proxy/config.go:121-133 | decides as safe, write in range, or undocumented command with permission, in that order |
| `Policies.WritesNeedARange` | internal/proxy/config.go:121-144 | a write is allowed if and only if its variable lies in a listed range, whatever else is granted |
| `Policies.AllowedExactly` | internal/proxy/config.go:121-133 | what each kind of command needs; a policy without rights lets through exactly the safe commands |
| `Policies.CompareOrder` | internal/proxy/config.go:88-99 | the comparison is a strict total order that ties only on equal priority and prefix |
| `Policies.CompareAtDifference` | internal/proxy/config.go:98-99 | of two addresses the one with the bit set is the greater where they first differ, and a beginning of an address is less |
| `Policies.LowerAddressWins` | internal/proxy/config.go:88-99 | of two base prefixes of one length that contain a client, the one with the higher written address is not selected |
| `Policies.ContainsExactly` | internal/proxy/config.go:155-162 | a valid prefix contains exactly the addresses of its family whose leading bits are its own, and an invalid one none |
| `Policies.SortSorts` | internal/proxy/config.go:88-101 | sorting entries with distinct keys keeps them all and orders them strictly |
| `Policies.Collect` | internal/proxy/config.go:51-72 | visiting a policy map in any order appends exactly its valid prefixes at the given priority |
| `Policies.OrderPolicies` | internal/proxy/config.go:49-102 | the list of a target is its base and own entries in order, or the two loopback entries if there are none |
| `Policies.Config.ExpandPolicy` | internal/proxy/config.go:44-105 | every target gets its list, and a zero idle time becomes five minutes |
| `Policies.ExpansionUnique` | internal/proxy/config.go:44-105 | the list does not depend on the order in which the maps are visited |
| `Policies.Target.PolicyFor` | internal/proxy/config.go:155-162 | returns the policy of the first entry that contains the source address, or none |
| `Policies.PolicySelection` | internal/proxy/config.go:155-162 | a policy is found if and only if some entry contains the client, and it is that of the least containing entry by priority, bits and address |
| `Policies.TargetPolicyApplies` | internal/proxy/config.go:62-99 | a client gets a policy of the target if and only if some prefix of the target contains it and no base prefix does, and the policy is the one configured for the prefix selected |
| `Policies.ShorterPrefixWins` | internal/proxy/config.go:93-99 | a containing base prefix gives the client a policy of a base prefix at most as long, and, when no base prefix contains it, a containing prefix of the target gives it one of a target prefix at most as long |
| `Policies.PrefixesNest` | internal/proxy/config.go:155-162 | of two prefixes that share an address the shorter contains all that the longer does |
| `Policies.ShadowedPolicy` | internal/proxy/config.go:62-99 | a policy of the target for a prefix inside a base prefix is never used: each of its clients gets a base policy |
| `Policies.DefaultPolicy` | internal/proxy/config.go:74-86 | if every configured prefix is invalid only the two loopback addresses are served, and may write nothing |
| `Policies.ReadmeExample` | README.md:91-95 | under the README's configuration every client of the wide netblock, writers included, gets the policy without rights |
| `Reconfigure.Route.Get` | internal/proxy/proxy.go:69-81 | something if and only if some entry contains the client: the route's connection and the policy of the first entry that does |
| `Reconfigure.Proxy.Find` | internal/proxy/proxy.go:102-133 | the connection, listener and route of the last generation, or new ones; fails exactly when a new listener is refused or its address taken |
| `Reconfigure.Proxy.Install` | internal/proxy/proxy.go:107-139 | one more target keeps everything built so far, and refills its own route only |
| `Reconfigure.Proxy.Rebuild` | internal/proxy/proxy.go:101-141 | visiting the targets in any order succeeds if and only if every address is held already or can be listened on, and builds tables in which each route carries a target of its address |
| `Reconfigure.Proxy.Adopt` | internal/proxy/proxy.go:143-153 | exactly the dropped listeners are closed, and the tables are the new ones |
| `Reconfigure.Proxy.Reconfigure` | internal/proxy/proxy.go:90-157 | a pass succeeds exactly on the stated condition; it opens exactly the addresses of the targets visited that were not held; on success it serves exactly the configured addresses, each by a target of that address, conserves common objects and closes exactly what was dropped; on failure it names a target whose address cannot be had, keeps the tables, closes nothing, and has refilled exactly the routes of the targets visited |
| `Reconfigure.Proxy.Stop` | internal/proxy/proxy.go:159-164 | on stopping, exactly the listeners of the tables are closed, so that a leaked one stays open |
| `Reconfigure.Proxy.PolicyFor` | internal/proxy/proxy.go:346-357 | nothing for an unrouted listener or a client that no entry of its route contains; otherwise the route's connection and the policy of the first entry that does |
| `Generations.TargetServed` | internal/proxy/proxy.go:101-153 | after a pass that succeeds with distinct ports, the route of a target's listener holds the connection and the policy list of that very target |
| `Generations.ServeClient` | internal/proxy/proxy.go:90-157 | a pass that succeeds with distinct ports and then a look-up on a target's listener give the connection to that host with the policy of the least entry, of those configured, that contains the client |
| `Generations.SameObjects` | internal/proxy/proxy.go:49-56 | over any run of passes, failed ones included, a host or address that no pass in between has dropped keeps its connection, listener and route object |
| `Generations.AlwaysSettled` | internal/proxy/proxy.go:143-153 | over a run of passes that all succeed, the open listeners are always exactly those of the configured addresses |
| `Generations.FailureStrands` | internal/proxy/proxy.go:116-121 | a failed pass leaves a new open listener outside the tables on each address it visited that was not held, and has refilled the route of every other |
| `Generations.StrandedForever` | internal/proxy/proxy.go:143-148 | a listener so left behind stays open and outside the tables over every later run of passes, and every one of them with a target on its address fails |
| `Generations.LeakedForGood` | internal/proxy/proxy.go:101-153 | a new proxy given two targets on one port and then one of the two alone: both passes fail, and the first one's listener is open for good |
| `Generations.RoutesLawful` | internal/proxy/proxy.go:136-139 | over any run of passes of a new proxy, failed ones included, every route holds the connection to one host with the expanded policies of that same host from some pass of the run |
| `Session.Relay` | internal/proxy/proxy.go:308-327 | sends one frame with the printed response, or one with the proxy error and the session ends; it ends too when the frame does not all go out |
| `Session.Turned` | internal/proxy/proxy.go:227-343 | one pass of the loop sends and forwards what its verdict says, and ends the session exactly on a lost client, a bad message, a missing route, a failed round trip or a reply that does not all go out |
| `Session.TurnEffects` | internal/proxy/proxy.go:227-343 | what each kind of turn does in front of any others: nothing without a line, a denial and on, a relayed answer and on, a proxy error and the end |
| `Session.SessionEnds` | internal/proxy/proxy.go:267-282 | a line that is no message, or one for a listener without a route, ends the session wherever it comes, without a reply and without forwarding anything |
| `Session.Proxy` | internal/proxy/proxy.go:210-344 | on a connection that fails after any number of bytes, or never, the loop sends exactly as much of the greeting and the frames of its turns as the connection takes, and forwards in order the commands up to the turn whose reply is cut |
| `Session.ForwardedFirst` | internal/proxy/proxy.go:266-327 | what is forwarded then is a beginning of what is forwarded on a connection that does not fail, and all of it on such a one |
| `Session.ForwardedUpTo` | internal/proxy/proxy.go:308-343 | the turns that count are all up to the first with which the conversation does not fit the connection |
| `Session.OnlyAllowedForwarded` | internal/proxy/proxy.go:267-308 | each forwarded command is the parse of the client's line at its own place, allowed by the policy of that very turn, with a range for its variable if it writes |
| `Dummy.Server.Peek` | pkg/dummy/dummy.go:139-144 | the value stored last, or zero, and whether there is one |
| `Dummy.Server.Poke` | pkg/dummy/dummy.go:147-151 | stores one variable and no other |
| `Dummy.Server.Handle` | pkg/dummy/dummy.go:153-189 | changes the store only for a write, whether or not the reply goes out, and sends the frame of the command's reply |
| `Dummy.Server.HandleLine` | pkg/dummy/dummy.go:199-216 | a blank line gets no reply, a bad one a complaint, and neither changes the store |
| `Dummy.Server.Run` | pkg/dummy/dummy.go:191-223 | the loop sends as much of the conversation of all replies as the connection takes, and leaves the store of the lines up to the one whose reply is cut |
| `Dummy.RepliesFramable` | pkg/dummy/dummy.go:153-216 | every reply is one framable line, so framing carries it |
| `Dummy.CannedIsDocumented` | pkg/dummy/dummy.go:41-55 | the commands with a canned reply are exactly the documented ones |
| `Dummy.QueryReads` | pkg/dummy/dummy.go:169-186 | a client that queries a non-negative integer variable learns the stored value, zero if none, NaN for variable 0 |
| `Dummy.QueryLearns` | pkg/dummy/dummy.go:169-186 | for every variable: the value stored or zero, NaN for variable 0, and the complaint of a bad number for a negative or fractional one; nothing changes |
| `Dummy.BasicLearns` | pkg/dummy/dummy.go:163-189 | the canned text of a documented command, NaN for 600, and the complaint of an unknown number otherwise; nothing changes |
| `Dummy.WriteLearns` | pkg/dummy/dummy.go:153-163 | a write sets its variable, and its client learns of the success |
| `Dummy.LinesRefused` | pkg/dummy/dummy.go:198-214 | a blank line gets nothing and one that does not parse the complaint of a bad message, and neither changes anything |
| `Dummy.OnlyStoredSucceeds` | pkg/dummy/dummy.go:153-216 | of all replies only the one to a write that was stored reads as a success of a write |
| `Dummy.ServesCommand` | pkg/dummy/dummy.go:198-217 | the printed line of a well-formed command is served as that command |
| `Buffers.Scanner.Fill` | pkg/conn/conn.go:130-131 | a read adds its bytes to what is held, shifting or replacing the array |
| `Buffers.Scanner.Next` | pkg/conn/conn.go:181-182 | a token is a view of the array that holds what the split function returns |
| `Buffers.OpaqueResponse.constructor` | pkg/message/opaque.go:41-44 | the response holds the bytes in an array of its own |
| `Buffers.Interpret` | pkg/message/query.go:63-73 | a response object says what the interpretation of the view says, and owns its bytes |
| `Buffers.Converse` | pkg/conn/conn.go:181-189 | after any list of round trips over one reused array, every response still says what its own token said |
| `Connection.Connection.CloseLocked` | pkg/conn/conn.go:106-116 | socket closed, channel closed once, all three fields nil |
| `Connection.Connection.DialLocked` | pkg/conn/conn.go:118-152 | all three fields new, or none |
| `Connection.Connection.WriteLocked` | pkg/conn/conn.go:160-197 | the command or a beginning of it is on the socket; the response interprets the token its own reads complete; on failure everything is closed, on success nothing is replaced |
| `Connection.Connection.RoundTrip` | pkg/conn/conn.go:80-104 | an expired context changes nothing; otherwise the call fails if and only if the connection is closed afterwards, and a new connection has carried the handshake and then the command |
| `Connection.StepsAgree` | pkg/conn/conn.go:181-196 | the steps of the concurrent model take from a scanner what these methods take |
| `Connection.TripToken` | pkg/conn/conn.go:181-196 | the token of a round trip is the first line of what is held and read, without its prompts, and what follows the line stays; an empty one and a broken write are failures |
| `Connection.TripWithoutLine` | pkg/conn/conn.go:181-196 | without a line there is no token, unless a read has failed: then what is there counts as one |
| `ConnShape.EpochSafety` | pkg/conn/conn.go:106-152 | after any run socket, channel and scanner are all set for one epoch or all nil, no channel was closed twice or sent to after closing, and only the current epoch's socket is open |
| `ConnShape.ClosesAll` | pkg/conn/conn.go:72-116 | after `Close`, a failed write or a failed wait for an answer there is no connection, channel or scanner, and every channel and socket ever opened is closed |
| `ConnShape.OpensOnlyByDial` | pkg/conn/conn.go:118-152 | a successful dial sets all three fields for a new epoch, and no other step opens or changes one |
| `ConnShape.StaleTimer` | pkg/conn/conn.go:135-142 | the goroutine of an earlier dial never closes a later connection |
| `ConnShape.ExactStuckStates` | pkg/conn/conn.go:132-161 | after any run, a holder at the keep-alive send has no continuation past it if and only if a token is buffered and the epoch's goroutine has taken its timer arm; otherwise the send or the receive is enabled |
| `ConnShape.StuckForever` | pkg/conn/conn.go:135-161 | no step of anyone ends a stuck state |
| `ConnProgress.ExactProgress` | pkg/conn/conn.go:80-161 | after any run, a call that holds the mutex or waits for it has a continuation in which it is over if and only if the holder is not doomed to reach a stuck send |
| `ConnExamples.StuckIsReachable` | pkg/conn/conn.go:132-161 | a run that reaches a stuck state |
| `ConnExamples.HalfAnAnswer` | pkg/conn/conn.go:181-189 | a run in which the machine answers 12.5 and the call succeeds with 1 |
| `ConnPairing.LifeCycle` | pkg/conn/conn.go:80-197 | each change of a call: under which step it may happen and from where, so that a new socket carries the handshake before the command and a response comes from a scan of its own |
| `ConnPairing.StepInv` | pkg/conn/conn.go:80-197 | every step of callers, goroutines, timers, faults and machine keeps texts, answers, scanner position and results paired |
| `ConnPairing.ResponsePairing` | pkg/conn/conn.go:80-104 | after any run, a call that returned had sent its command whole, and its response interprets the answer to that very text if and only if no read failed or all of the answer was in hand; otherwise it interprets a beginning of that answer or bare prompts |
| `ConnPairing.SentAtMostOnce` | pkg/conn/conn.go:160-179 | no call writes one part of its round trip twice, on whatever epochs |
| `ConnPairing.AnswersNotShared` | pkg/conn/conn.go:160-197 | no answer is delivered to two calls, so one left unread by a failed call reaches nobody |
| `Registers.LinearizableCall` | pkg/dummy/dummy.go:153-189 | a call that returns with all of its answer takes effect and gets its response at one point of the server's lock order, where its own text is served, between its beginning and its end |
| `Registers.LinearizableQuery` | pkg/dummy/dummy.go:169-186 | such a query returns what the store holds for the variable at that point, zero if nothing, and NaN for variable 0 |
| `Registers.LinearizableWrite` | pkg/dummy/dummy.go:153-163 | such a write succeeds, and the store after that point is the one before it with the variable set to the value |
| `Registers.MarkedOnce` | pkg/conn/conn.go:80-104 | each call begins once and ends at most once in the log |
| `Registers.MarksExactly` | pkg/conn/conn.go:80-104 | a step marks the beginning of exactly the call it makes and the end of exactly the call it ends |
| `Registers.EffectAtMostOnce` | pkg/conn/conn.go:80-104 | a call, failed or not, is served at most once |
| `LateEffects.LateEffect` | pkg/dummy/dummy.go:198-216 | after any run, the command of a call that is over can be taken in some continuation if and only if some of it is on a socket and waits to be taken |
| `LateEffects.LateChange` | pkg/dummy/dummy.go:153-163 | a text taken after its call is over was waiting, changes at most the variable its command writes, is read as the command if and only if enough of it waited, and then has exactly its effect |
| `LateEffects.LateCommand` | pkg/dummy/dummy.go:198-216 | the whole command of a call that is over can still be carried out in some continuation if and only if enough of it waits on a socket |
| `LateEffects.FailureLeaves` | pkg/conn/conn.go:80-104 | a step that fails a call leaves some of its command on a socket if and only if it is the scan for the command's answer or its write after a byte or more |
| `LateEffects.NeverTaken` | pkg/conn/conn.go:80-104 | a call that is over and of whose command nothing went out is taken neither before nor in any continuation |
| `RegisterExamples.LateWrite` | pkg/conn/conn.go:160-197 | a run in which the call of a write has failed and the machine stores its value afterwards |
| `Registers.ServedEffect` | pkg/dummy/dummy.go:153-163 | a served text changes no variable but the one its call writes, even if cut short; it is read as its call's command if and only if enough of it arrived, and then has exactly that command's effect |
| `Registers.ServerSeesTexts` | pkg/dummy/dummy.go:198-204 | however the bytes of a connection are cut into reads, the server finds the line of each text in order |
| `Clients.RunProjects` | pkg/dummy/dummy.go:139-189 | what one connection sees of any run of many connections on one store is a run of its own against an environment |
| `Clients.LinearizableCall` | pkg/dummy/dummy.go:139-189 | with any number of connections and pokes, a call that returns with all of its answer takes effect and gets its response at one point of the server's one lock order, where its own text is served, between its beginning and its end |
| `Clients.StoreIsLast` | pkg/dummy/dummy.go:146-163 | at every point of the log the store holds for a variable what the last poke or write of it before the point stored, and nothing if there was none |
| `Clients.LinearizableRegisters` | pkg/dummy/dummy.go:139-189 | such a query returns what the last poke or write of the variable before that point stored, zero if there was none, and NaN for variable 0 |
| `Clients.LinearizableWrites` | pkg/dummy/dummy.go:146-163 | such a write succeeds and stores its value at that point |
| `Clients.QuerySeesWrite` | pkg/dummy/dummy.go:139-189 | a query begun after a write of its variable returned, on whatever connections, returns the value of that write, from the point where it is served, or that of a later store |
| `Clients.EffectAtMostOnce` | pkg/conn/conn.go:80-104 | a call of any connection, failed or not, is served at most once in the common order |
| `Clients.StoreIsLogged` | pkg/dummy/dummy.go:146-163 | the order of the log is the order of the lock: it determines the store |
| `Confinement.StepInv` | internal/proxy/proxy.go:266-308 | every step of clients, configurations, routes, connections and machines keeps each call with a lawful gate, each route with a lawful pair, and each look-up with the moments it was made |
| `Confinement.WriteConfined` | internal/proxy/proxy.go:274-308 | when a machine takes a line, only its own store can change, only in the variable of the gated write it comes from, whose policy and connection were read together from the route of the client's listener; the line parses to exactly the command that was gated if and only if enough of it arrived, and then has exactly its effect |
| `Confinement.OnlyServeWrites` | pkg/dummy/dummy.go:153-163 | no other step touches any machine |
| `Confinement.Confined` | internal/proxy/config.go:121-144 | after any run, every variable a machine has was written by a client whose policy, from its listener's route and from a list of this host, has a range that holds the variable's number |
| `PassSteps.PassIsSteps` | internal/proxy/proxy.go:90-157 | from any state of the whole program that shows the proxy before a pass, the program has steps of its own to a state that shows it after the pass, whether it succeeds or fails, with any fills on the way that later targets of the same address overwrite |
| `PassSteps.PassesAreSteps` | internal/proxy/proxy.go:90-157 | any run of passes of a new proxy is shown by a run of the whole program |
| `PassSteps.OthersKeep` | internal/proxy/proxy.go:166-205 | no step of clients, connections or machines changes what is shown of the proxy |
| `Proxied.RunProjects` | internal/proxy/proxy.go:306-313 | what any run of the whole program does at a host, its steps taken in order and no pokes among them, is a run of many connections on one store, and its log is the log of the host in that very run |
| `Proxied.ProxiedCall` | pkg/dummy/dummy.go:139-189 | in any run of the whole program, a forwarded command that returns with all of its answer takes effect and gets its response at one point of the log of its host in that run, where the machine takes its own text, between the beginning and the end of its call |
| `Proxied.ProxiedQuerySeesWrite` | pkg/dummy/dummy.go:139-189 | for a query forwarded after another client's write has come back: in the log of the run the write is taken and ends within the part before, the query begins after that, and returns the value of that write or of the last later store before the point where it is taken |
| `Transparency.WithoutRanges` | internal/proxy/config.go:121-144 | under a policy without write ranges no list of commands changes the store |
| `Transparency.GovernedWrites` | internal/proxy/proxy.go:297-313 | to the client a write has succeeded if and only if a range of the policy holds its variable; otherwise it is told of the denial |
| `Transparency.RefusalsFail` | internal/proxy/proxy.go:302-313 | a denial or a proxy error is a failure to the client that hears it, for every kind of command |
| `Transparency.RelayedBytes` | internal/proxy/proxy.go:314-327 | a relayed answer of the machine is the machine's own, byte for byte |
| `Transparency.DirectConnection` | pkg/conn/conn.go:80-104 | a fault-free connection straight to the machine gets the responses, and leaves the store, of commands handled one after the other |
| `Transparency.SessionOf` | internal/proxy/proxy.go:266-327 | the loop forwards exactly the commands the policy lets through and relays their answers and the denials in order |
| `Transparency.AllForwarded` | internal/proxy/proxy.go:306-313 | the loop never runs out of answers, since the machine answers every command it is sent |
| `Transparency.Transparent` | internal/proxy/proxy.go:306-327 | over the four byte streams, cut into any reads, a connection through the proxy gets the responses and leaves the store of the governed reference, which is the direct one if the policy allows every command |
| `Timeouts.WithoutTimeouts` | internal/proxy/proxy.go:242-255 | when no read times out, the replaced scanner is the kept one: the lines heard are those of the stream |
| `Timeouts.HeardLines` | internal/proxy/proxy.go:242-255 | over any reads and timeouts, each line a client sends is heard as what is left of it after the last timeout strictly inside it |
| `Timeouts.RestJudged` | internal/proxy/proxy.go:257-272 | the end of a printed command is ignored if only its line feed is left, and otherwise is a bad message that ends the session |
| `Timeouts.SlowClient` | internal/proxy/proxy.go:242-327 | a session with timeouts is the session of a client that wrote the commands kept, and all are kept if and only if no timeout falls strictly inside one |
| `Timeouts.LostCommand` | internal/proxy/proxy.go:247-249 | any command interrupted in front of its line feed is heard as a blank line |
| `SharedConnection.WritesSent` | pkg/conn/conn.go:118-179 | after any run, an epoch on which no write failed has written the handshake once and first, and then the commands of its calls, whole and in order |
| `SharedConnection.HandshakeText` | pkg/message/message.go:55 | the handshake is the query of the serial number, `?Q100` and a line feed |
| `SharedConnection.ReturnsReference` | pkg/conn/conn.go:80-104 | after any run, while the machine answers an epoch, a call that returns on it with all of its answer gets the response of the reference to its own command in its place among those written |
| `Transparency.StreamsExist` | internal/proxy/proxy.go:210-344 | such streams exist for all commands and policies |

## Left out

- Registers.LinearizableCall: leaves out calls whose answer was cut short by a read error, because what the code returns for them is no answer of the machine's.
- Clients.LinearizableCall: leaves out the same calls, for the same reason.
- SharedConnection.ReturnsReference: speaks of epochs on which no write has failed part way; of others `Truncation.CutWrite` says what the machine reads.
- Transparency.DirectConnection: pairs tokens with commands in order; that the concurrent connection does so is `SharedConnection.ReturnsReference`.
- Transparency.Transparent: one client under one fixed policy, without faults; slow clients are `Timeouts.SlowClient`, many clients under changing policies with faults are `Confinement` and `Proxied`, the end of a client's connection is `Session.Proxy`.
- Timeouts.SlowClient: one client under one fixed policy, with a backend that answers every command forwarded.
- PassSteps.PassIsSteps: the program of `Confinement` publishes a new route at once, while the proxy holds its lock until the whole table is taken; the program can do more than the proxy, which is the safe side for what is proved of it.
- Sockets, TCP accept, name resolution, clocks and deadlines: steps or parameters that may succeed, fail or fire at any time.
- The proxy's idle bookkeeping: dropping a client is a turn that may occur at any time. After a client's end of input the loop keeps turning until the idle time is over, which the model shows as turns without effect.
- Scanner limits: the maximal token of 64 KB, the bound on empty reads, and Unicode white space; the model's buffer is unbounded and its white space ASCII. The vertical tab counts for trimming and not for `\s`, as in Go.
- Port 0 and overlapping wildcard binds: a listener's address is exactly what the configuration says.
- IPv6 zones and IPv4-mapped addresses: each prefix and client has one family and width.
- `Float64` and `LogValue` of numbers, logging and audit records: they report and decide nothing.
- JSON decoding, file watching, the command-line tools, signal handling, the stopper and notify libraries: plumbing over code that is not part of this model.
- Answers that framing does not carry: in `Conn` a backend sends prompts and frames with framable payloads, which is what `Dummy.RepliesFramable` proves of the machine.
- The machine's broadcast of replies to all its connections: the proxy holds the only connection wherever pairing is claimed.
- Termination of round trips: apart from stuck states nothing is claimed about progress.
