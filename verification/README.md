# Dafny model of the device firmware

The firmware brings a device from power-up to publishing sensor data: it makes a key, claims a
certificate over HTTP with JSON bodies, opens TLS, connects MQTT and publishes. This project models the
parts of it that hold the logic, in the form the C code has, and proves what they are for.

* **The JSON tokenizer** (`jsmn.h`, built with strict primitives and parent links, as `json_parser.c`
  does). `JsmnParser.Parser` is the parser object with its three fields, filling and patching a token
  array in place; it is proved equal to a machine on values, `Jsmn.Step` and `Jsmn.Run`. About the
  machine, over every character string: the tokens are always a preorder numbering of an ordered forest
  with right child counts (`JsmnInvariant`), a parse may be cut into calls at any place (`Resume`), the
  counting pass and the filling pass agree (`Resume`), every token is spelled out by the text
  (`Exactness`) and every character accounted for (`Layout`), the brackets of an accepted text balance
  exactly when none was let through (`Brackets`), and a text is refused exactly when no continuation of it
  is accepted (`Viability`).
* **The tree API** (`json_parser.c`). `Navigation.JParseCtx` searches and moves a cursor in the flat
  array; `Zipper` shows that this is a zipper over the tree that was printed.
* **The generator** (`json_generator.c`). `Generator.JsonGen` is the comma state machine over a fixed
  buffer that is flushed or truncated; `GeneratorTree` says which call sequences write which tree, and
  `EndToEnd` joins generator, tokenizer and look-up.
* **Claiming** (`esp_rmaker_claim.c`). `Claim` holds the two in-place newline rewriters and their exact
  round trip, `ClaimRequest` the second request to the service and `ClaimResponse` the handling of its
  last answer.
* **Network bring-up** (`main.c`). FreeRTOS tasks meeting in one event group are a state machine
  (`Network`): `Apply` is one atomic access of one task to the event group, to a global or to
  non-volatile storage, with what foreign calls answer as part of the action; a run is any sequence of
  actions, reboots among them. `ApplyHandler` is main.c:698-753, `ApplyKey` main.c:455-524, `ApplyCert`
  main.c:538-599, `ApplyTls` main.c:606-644, `ApplyMqtt` main.c:652-690, `ApplySender` the waiting,
  publishing and failing of main.c:779-853, and the Wi-Fi and IP actions main.c:382-445.
  `NetworkSafety` and `Credentials` hold what every run keeps, `Answers` and `Reports` that the bits say
  what the calls answered, `Provisioning` that claiming happens once, `Progress` that bring-up never sticks.

JSON texts are trees (`JsonTree.Value`) that carry their white space, so a theorem about printed trees
is about every layout. Sections 2 to 7 of RFC 8259 give the grammar and the character classes, defined in
`JsonTree` apart from the tokenizer's own; the tokenizer is laxer for primitives and misplaced
punctuation. The root is an object or an array, because a strict primitive needs a delimiter behind it.

Where the code and its own description differ, the model follows the code:

* A closing bracket that meets no open container is let through when some token is superior and the root
  above the last token has the kind the bracket closes (`Brackets.UnmatchedClose`); the backward scan of
  the other build treats every unmatched closing bracket as an error (jsmn.h:348-351).
* Flushed chunks hold one character less than the buffer, not the buffer's size as the comment at
  json_generator.c:32-36 says: the last cell is the terminator.
* The newline escape is not invertible on texts with empty lines (`Claim.AdjacentNewlines`).

Where a plain law is false, the condition under which it holds is proved exactly:

* A text without NULs is refused if and only if no continuation of it is accepted
  (`Viability.RefusedExactly`).
* A text parses to its tree's tokens if and only if its gaps hold white space and its strings and numbers
  are legal (`Layout.LayoutExactly`).
* The brackets of an accepted text balance if and only if no closing bracket was let through, and none
  is unless a colon stands outside all brackets (`Brackets.BalanceExactly`).
* Generated text parses to the tree's tokens if and only if all string bodies and names are ones the
  tokenizer reads to their end (`EndToEnd.GeneratedTextExactly`), since the generator escapes nothing.
* The copy loop of the generator ends with a callback if and only if the buffer has two cells or there
  is nothing to add (`Generator.CopyLoopTerminates`).
* Unescaping undoes escaping if and only if the text has no two newlines in a row and no backslash
  except directly behind a newline (`Claim.RoundTripExactly`).
* The stored key and certificate stay together on every run in which the key worker makes no key beside
  a stored certificate (`Credentials.CredentialsAreSafe`), and any step that does can be followed by
  three that tear them apart (`Credentials.BreakingTheGuardBreaksPair`).
* From any state of a run with reliable reads, MQTT can still be connected without a reboot if and only
  if no MQTT worker ended with MQTTNoMemory or is about to (`Progress.BringUpNeverSticks`).

Where the source would leave its buffers the model stops and says so in the result: `Outside` for a
look-up whose key is the last token, `inside == false` for an escape that does not fit.

## Model

| member | source | states |
|---|---|---|
| `Jsmn.Step` | components/json_parser/upstream/jsmn/jsmn.h:275-441 | An iteration of the main loop either moves forward or stops with a negative code and leaves position, superior token and filled tokens as they were; parents keep pointing backwards |
| `Jsmn.Finish` | components/json_parser/upstream/jsmn/jsmn.h:443-452 | The call ends with PART exactly when some token is still open, and with the number of tokens otherwise |
| `JsmnInvariant.StepInv` | components/json_parser/upstream/jsmn/jsmn.h:275-441 | Every iteration, on any character, keeps the forest invariant |
| `JsmnInvariant.ForestInvariant` | components/json_parser/upstream/jsmn/jsmn.h:275-441 | For every string and every array size, wherever the call stops: preorder numbering, `size` equal to the number of children, starts strictly increasing, children of objects are strings, the superior token and every open container on the last token's ancestor chain |
| `JsmnInvariant.RunCap` | components/json_parser/upstream/jsmn/jsmn.h:106-119 | No call fills more cells than it was given |
| `JsmnInvariant.RunPrimitivesFirst` | components/json_parser/upstream/jsmn/jsmn.h:413-420 | Whatever the text, a primitive below a key is the key's first child |
| `JsmnInvariant.ClimbFinds` | components/json_parser/upstream/jsmn/jsmn.h:318-335 | The climb stops at the nearest open ancestor, and at a token that is not open only when no ancestor is |
| `JsmnInvariant.ClimbIsBackwardScan` | components/json_parser/upstream/jsmn/jsmn.h:314-347 | Whenever a container is open the parent climb stops at the token that the backward scan of the other build finds |
| `JsmnInvariant.SuperIsBelowNearestOpen` | components/json_parser/upstream/jsmn/jsmn.h:352-358 | The nearest open token above the superior one is the one the second backward scan finds; there is none exactly when that scan finds none |
| `Resume.StepGrow` | components/json_parser/upstream/jsmn/jsmn.h:166-181 | An iteration that succeeded or refused does the same on a longer text with more cells |
| `Resume.RunGrow` | components/json_parser/upstream/jsmn/jsmn.h:268-453 | After PART, NOMEM or success, going on with more text and more cells gives what one call from the start would have given; a refusal is final |
| `Resume.FeedIsOneCall` | components/json_parser/upstream/jsmn/jsmn.h:268-453 | Any sequence of calls over growing prefixes and growing arrays ends with the code, position, superior token and tokens of one call over the whole text |
| `Resume.PassesAgree` | components/json_parser/upstream/jsmn/jsmn.h:273-452 | The filling pass moves as the counting pass does from the same point, for every array size |
| `Resume.TwoPasses` | components/json_parser/upstream/src/json_parser.c:373-387 | After a count of n > 0 the filling pass over n cells never runs out; unless it refuses it ends at the same place with exactly n tokens, and when it accepts nothing is open |
| `Resume.TwoPassesSuffice` | components/json_parser/upstream/src/json_parser.c:373-387 | Counting first loses nothing: what a single pass accepts with any array is accepted with the same tokens |
| `Resume.RunEnds` | components/json_parser/upstream/jsmn/jsmn.h:443-452 | A call that succeeds returns the number of filled tokens |
| `Resume.ParseStartAccepted` | components/json_parser/upstream/src/json_parser.c:369-390 | Everything accepted is a non-empty preorder forest with right counts, keys that are strings, and closed spans inside the text |
| `JsmnParser.Parser.AllocToken` | components/json_parser/upstream/jsmn/jsmn.h:106-119 | Hands out the next cell, reset but for its type, or nothing when the array is full |
| `JsmnParser.Parser.ParsePrimitive` | components/json_parser/upstream/jsmn/jsmn.h:135-188 | In place: code, position and new token are those of the scan, and any failure rolls the position back and leaves the array alone |
| `JsmnParser.Parser.ParseString` | components/json_parser/upstream/jsmn/jsmn.h:193-263 | The same for strings, escapes and hexadecimal digits included |
| `JsmnParser.Parser.FindOpen` | components/json_parser/upstream/jsmn/jsmn.h:318-335 | The climbing loop ends, at the token the machine's climb names |
| `JsmnParser.Parser.OpenBracket` | components/json_parser/upstream/jsmn/jsmn.h:281-307 | In place: the machine's step for an opening bracket; after a refusal one more cell is taken, reset but for its type, and all others are as before |
| `JsmnParser.Parser.CloseBracket` | components/json_parser/upstream/jsmn/jsmn.h:308-336 | In place: the machine's step for a closing bracket, every other cell left alone |
| `JsmnParser.Parser.Comma` | components/json_parser/upstream/jsmn/jsmn.h:379-385 | In place: the superior token after a comma |
| `JsmnParser.Parser.StringCase` | components/json_parser/upstream/jsmn/jsmn.h:361-370 | In place: the machine's step for a string, its parent's count raised once |
| `JsmnParser.Parser.PrimitiveCase` | components/json_parser/upstream/jsmn/jsmn.h:413-433 | In place: the machine's step for a primitive, refused as a key or as a second value, its parent's count raised once |
| `JsmnParser.Parser.Character` | components/json_parser/upstream/jsmn/jsmn.h:275-441 | One iteration of the loop is one step of the machine on the whole array, the cell a refused opening bracket takes included, with the count kept right; with null tokens it is the counting step |
| `JsmnParser.Parser.Parse` | components/json_parser/upstream/jsmn/jsmn.h:268-453 | `jsmn_parse` from any valid state is the machine's run: code, position, superior token and every cell of the array, the one a refused opening bracket takes included; with null tokens it is the counting run |
| `JsmnParser.Parser.AnyOpen` | components/json_parser/upstream/jsmn/jsmn.h:443-450 | The final scan reports exactly whether some filled token is open |
| `JsmnParser.Parser.Init` | components/json_parser/upstream/jsmn/jsmn.h:459-463 | The initial state of the machine |
| `JsmnParser.JsonParseStart` | components/json_parser/upstream/src/json_parser.c:369-390 | Succeeds exactly when there is memory for the tokens and both passes do, with an array of exactly the counted size holding the machine's tokens |
| `Exactness.RunLexed` | components/json_parser/upstream/jsmn/jsmn.h:135-452 | Whatever the text, every token is spelled out by it: matching brackets at the ends of a closed container, quotes around a string, one scan for each string and primitive |
| `RoundTrip.ScanBody` | components/json_parser/upstream/jsmn/jsmn.h:203-262 | A string body that is legal by section 7 of RFC 8259, control characters allowed, is read to its closing quote |
| `Exactness.BodyFound` | components/json_parser/upstream/jsmn/jsmn.h:203-262 | The converse: a body read to its end is legal |
| `RoundTrip.ScanLexeme` | components/json_parser/upstream/jsmn/jsmn.h:143-170 | Visible ASCII characters other than a comma or a closing bracket form the primitive, which ends at the delimiter behind them |
| `Exactness.LexemeFound` | components/json_parser/upstream/jsmn/jsmn.h:143-170 | The converse: a primitive that was read holds only such characters |
| `JsonTree.NumbersAreLegal` | components/json_parser/upstream/jsmn/jsmn.h:135-170 | Every number of section 6 of RFC 8259 is such a primitive |
| `RoundTrip.ParsePrinted` | components/json_parser/upstream/jsmn/jsmn.h:268-453 | Every JSON text with an object or array as root, with any white space of RFC 8259 in any of its gaps, parses with enough cells to exactly the preorder encoding of its tree: types, spans, child counts, parents, and no superior token left |
| `RoundTrip.ParseStartPrinted` | components/json_parser/upstream/src/json_parser.c:369-390 | The same through counting and filling |
| `Exactness.RoundTripExactly` | components/json_parser/upstream/src/json_parser.c:369-390 | A text laid out with the four white space characters of RFC 8259 parses to the encoding of its tree if and only if every string body, name and number is legal |
| `Layout.EveryCharacterAccounted` | components/json_parser/upstream/jsmn/jsmn.h:275-441 | Every character an accepted text was read to is white space, punctuation, or part of a string or primitive that is a token |
| `Layout.LayoutExactly` | components/json_parser/upstream/src/json_parser.c:369-390 | Whatever characters but punctuation, quotes and NULs stand in the gaps of a text: it parses to the encoding of its tree if and only if they are all white space and every string body, name and number is legal |
| `Viability.Completes` | components/json_parser/upstream/jsmn/jsmn.h:443-450 | Every text without NULs that a call neither refused nor ran out on can be continued to an accepted one |
| `Viability.RefusedExactly` | components/json_parser/upstream/jsmn/jsmn.h:166-262 | With as many cells as characters, a text without NULs is refused with INVAL if and only if no continuation of it is accepted; every other call asks for more text or succeeds |
| `Brackets.UnmatchedClose` | components/json_parser/upstream/jsmn/jsmn.h:308-335 | In every state the tokenizer can be in, a closing bracket that meets no open container is let through, changing nothing, exactly when some token is superior and the root above the last token has the kind it closes; otherwise the text is refused |
| `Brackets.RootedRefuses` | components/json_parser/upstream/jsmn/jsmn.h:328-332 | While the superior token and the parents of the open ones lie below open containers, such a bracket is refused |
| `Brackets.StepRooted` | components/json_parser/upstream/jsmn/jsmn.h:275-441 | Every step keeps that, but for a colon read when tokens exist and none is open |
| `Brackets.RunNests` | components/json_parser/upstream/jsmn/jsmn.h:268-453 | On every text a call accepts, brackets outside strings nest, each closing the last one open, if and only if no bracket was let through |
| `Brackets.LetThroughAfterColon` | components/json_parser/upstream/jsmn/jsmn.h:376-378 | A bracket is let through only after a colon outside all brackets |
| `Brackets.BalanceExactly` | components/json_parser/upstream/src/json_parser.c:369-390 | The same of every accepted text: balanced exactly when none was let through, and unbalanced only with a colon outside all brackets |
| `Exactness.UnbalancedAccepted` | components/json_parser/upstream/jsmn/jsmn.h:328-332 | A witness: the text `{}:}` is accepted |
| `Exactness.KeyWithoutValue` | components/json_parser/upstream/jsmn/jsmn.h:361-370 | Every legal text may stand in an object as a key without a value, and then has size 0 |
| `Decimal.ReadShown` | components/json_parser/upstream/src/json_parser.c:55-66 | Every 32-bit integer printed with `%d` is read back as itself, negative ones through the 32-bit unsigned conversion, with the end pointer exactly at its end |
| `Decimal.ReadExactly` | components/json_parser/upstream/src/json_parser.c:55-66 | A token without leading blanks reads as an integer exactly when it is an optional sign followed by digits |
| `Decimal.ReadValue` | components/json_parser/upstream/src/json_parser.c:55-66 | What is then read: the number modulo 2^32 as an `int`, or -1 when its digits do not fit in 32 bits |
| `Decimal.DigitsValue` | components/json_generator/upstream/json_generator.c:201-207 | The printed digits have the value printed and no leading zero |
| `Navigation.MatchIsEquality` | components/json_parser/upstream/src/json_parser.c:26-31 | The comparison of a token with a key is equality of their texts |
| `Navigation.JParseCtx.SkipElem` | components/json_parser/upstream/src/json_parser.c:33-42 | On every accepted text it ends, stays inside the array and returns the last token of the subtree |
| `Navigation.JParseCtx.ObjSearch` | components/json_parser/upstream/src/json_parser.c:103-119 | Returns the first child whose text is the key, or none |
| `Navigation.FirstMatchMeans` | components/json_parser/upstream/src/json_parser.c:103-119 | First match: the text is equal there and nowhere earlier; none: it is equal nowhere |
| `Navigation.KeyOfMeans` | components/json_parser/upstream/src/json_parser.c:103-119 | On every accepted text: the found token is a string child of the object with that text and no earlier child has it; when none is found no child has it |
| `Navigation.JParseCtx.ArrSearch` | components/json_parser/upstream/src/json_parser.c:261-275 | Returns child number i for every i below the size, and nothing otherwise |
| `Navigation.AdvanceToKid` | components/json_parser/upstream/src/json_parser.c:112-117 | The token after an element, or after the container itself, is the next child |
| `Navigation.JParseCtx.ObjGetValTok` | components/json_parser/upstream/src/json_parser.c:121-130 | On every accepted text: the token behind the first key of that name, when it has the kind asked for; `Outside` exactly when that key is the last token, where the source reads the cell behind the array |
| `Navigation.KeyHasValue` | components/json_parser/upstream/src/json_parser.c:126-129 | The token behind a key, which a look-up takes for the value, is a child of the key exactly when the key has a value |
| `Navigation.KeysHaveValuesSuffice` | components/json_parser/upstream/src/json_parser.c:121-130 | When every key of an object has its value, no look-up in it leaves the array |
| `Navigation.JParseCtx.ArrGetValTok` | components/json_parser/upstream/src/json_parser.c:276-284 | The item of that number, when it has the kind asked for |
| `Navigation.JParseCtx.ObjGet` | components/json_parser/upstream/src/json_parser.c:132-163 | Moves the cursor into the value and tells its size, or leaves the cursor where it is |
| `Navigation.JParseCtx.ObjLeave` | components/json_parser/upstream/src/json_parser.c:142-177 | Two parent hops; a second hop that fails keeps the first |
| `Navigation.JParseCtx.ArrGet` | components/json_parser/upstream/src/json_parser.c:286-310 | Moves the cursor into the item, or leaves it where it is |
| `Navigation.JParseCtx.ArrLeave` | components/json_parser/upstream/src/json_parser.c:295-318 | One parent hop |
| `Navigation.JParseCtx.TokToInt` | components/json_parser/upstream/src/json_parser.c:55-66 | Succeeds exactly when the number ends where the token does |
| `Navigation.JParseCtx.ObjGetInt` | components/json_parser/upstream/src/json_parser.c:187-193 | The integer under a name, or failure when there is none of that kind or it does not end with its token |
| `Navigation.JParseCtx.TokToBool` | components/json_parser/upstream/src/json_parser.c:44-53 | The four accepted texts and their values, failure on every other |
| `Navigation.JParseCtx.ObjGetBool` | components/json_parser/upstream/src/json_parser.c:179-185 | The boolean under a name, or failure when there is none of that kind or its text is not one of the four |
| `Navigation.JParseCtx.TokToString` | components/json_parser/upstream/src/json_parser.c:94-101 | Text and terminator are written and nothing else, or nothing at all when they do not fit |
| `Navigation.JParseCtx.ObjGetText` | components/json_parser/upstream/src/json_parser.c:211-250 | Look-up and copy in one: the text of the value of that kind and its terminator, or nothing when there is none or it does not fit |
| `Zipper.LastOfValue` | components/json_parser/upstream/src/json_parser.c:33-42 | In a printed tree the subtree of a value is exactly its stretch of the array |
| `Zipper.LookUpFinds` | components/json_parser/upstream/src/json_parser.c:121-130 | In a printed tree a look-up by name finds the value of the first member of that name, linked to the object by two parent hops |
| `Zipper.ItemLookUpFinds` | components/json_parser/upstream/src/json_parser.c:276-284 | In a printed tree a look-up by number finds that item, linked to the array by one parent hop |
| `Zipper.PrintedKeysHaveValues` | components/json_parser/upstream/src/json_parser.c:121-130 | In a printed tree every key has a value, so look-ups are safe |
| `Zipper.MoveRefines` | components/json_parser/upstream/src/json_parser.c:132-177 | A nested get or leave moves the cursor as the zipper moves, and leaving undoes getting |
| `Zipper.NavigationRefinesZipper` | components/json_parser/upstream/src/json_parser.c:132-318 | After parsing any legal text, every properly nested sequence of gets and leaves succeeds and fails where the tree zipper does and ends on its focus |
| `Zipper.TextOfValue` | components/json_parser/upstream/src/json_parser.c:94-101 | The text of a token is the string's body, or the printed value |
| `Zipper.IntMemberReads` | components/json_parser/upstream/src/json_parser.c:187-193 | The integer under a name in a printed object is read back as the tree has it |
| `Zipper.BoolMemberReads` | components/json_parser/upstream/src/json_parser.c:179-185 | The boolean under a name in a printed object is found with its text |
| `Zipper.StringMemberReads` | components/json_parser/upstream/src/json_parser.c:211-217 | The string under a name in a printed object is found with its body |
| `Zipper.SubtextParses` | components/json_parser/upstream/src/json_parser.c:228-250 | The text of an object or array inside a printed tree parses to that subtree's tokens, spans shifted by its start, parents by its number, its root on its own |
| `EndToEnd.GetTextThenParse` | components/json_parser/upstream/src/json_parser.c:228-250 | Look-up, copy into a buffer of the reported length and a second parse of the copied C string: accepted, with the tokens of the subtree so moved |
| `Generator.CopyLoopTerminates` | components/json_generator/upstream/json_generator.c:47-62 | The copy loop ends after some number of rounds exactly when the buffer has two cells or there is nothing to add |
| `Generator.JsonGen.CopySome` | components/json_generator/upstream/json_generator.c:48-61 | One round, in place, is the round counted there, and loses nothing |
| `Generator.JsonGen.constructor` | components/json_generator/upstream/json_generator.c:72-81 | A fresh generator: nothing appended, no comma pending |
| `Generator.JsonGen.Flush` | components/json_generator/upstream/json_generator.c:50-57 | The callback sees exactly the characters in the buffer |
| `Generator.JsonGen.AddToStr` | components/json_generator/upstream/json_generator.c:37-69 | Appends the text: flushed chunks and buffer join to all that was appended, chunks fill the buffer, without a callback the buffer keeps what fits, and the code tells whether it did |
| `Generator.JsonGen.AddFlushing` | components/json_generator/upstream/json_generator.c:47-62 | The copy loop loses nothing and ends where the counted rounds do |
| `Generator.JsonGen.AddTruncating` | components/json_generator/upstream/json_generator.c:47-62 | Without a callback: one round, failure exactly when something does not fit |
| `Generator.JsonGen.End` | components/json_generator/upstream/json_generator.c:83-93 | Returns the total length and one; the chunks join to the whole text, or the buffer holds its first characters as a string; the object is reset |
| `Generator.JsonGen.HandleComma` | components/json_generator/upstream/json_generator.c:95-99 | Appends a comma exactly when one is pending |
| `Generator.JsonGen.HandleName` | components/json_generator/upstream/json_generator.c:102-107 | Appends the quoted name and a colon |
| `Generator.JsonGen.SetScalar` | components/json_generator/upstream/json_generator.c:180-247 | Appends the value's text and leaves a comma pending |
| `Generator.JsonGen.SetLongString` | components/json_generator/upstream/json_generator.c:263-268 | Appends a quote and the first piece, and leaves a comma pending |
| `Generator.JsonGen.Issue` | components/json_generator/upstream/json_generator.c:110-308 | Every call of the interface: what it appends, whether a comma is pending after it, and its code |
| `GeneratorTree.IssueAll` | components/json_generator/upstream/json_generator.c:37-308 | Any sequence of calls, through any buffer: the text appended, the flag, and every code |
| `GeneratorTree.CodeTellsFit` | components/json_generator/upstream/json_generator.c:52-58 | A call whose last piece is not empty succeeds exactly when the whole text up to it fits |
| `GeneratorTree.FitsNeverFails` | components/json_generator/upstream/json_generator.c:52-58 | When the whole text fits, every call succeeds |
| `GeneratorTree.SizeThenWrite` | components/json_generator/upstream/json_generator.c:42-46 | Dry-run sizing: with a buffer of at least the length a run without one reports, the same calls all succeed and the buffer holds the whole text |
| `GeneratorTree.ItemPrints` | components/json_generator/upstream/json_generator.c:95-178 | Comma discipline: the calls for a tree append its printing, after a comma when one is pending, and leave one pending |
| `GeneratorTree.MemberPrints` | components/json_generator/upstream/json_generator.c:137-178 | The same for a value below a name |
| `GeneratorTree.MembersPrint` | components/json_generator/upstream/json_generator.c:95-308 | The members of an object, at any depth: one comma between every two and nowhere else |
| `GeneratorTree.ItemsPrint` | components/json_generator/upstream/json_generator.c:95-308 | The items of an array, alike |
| `EndToEnd.GeneratedTextParses` | components/json_parser/upstream/src/json_parser.c:369-390 | Any legal tree with an object or array as root, issued as calls in tree order, gives a text that parses to exactly the tree's preorder encoding |
| `EndToEnd.GeneratedTextExactly` | components/json_generator/upstream/json_generator.c:242-255 | Without assuming legal strings: the text parses to the encoding of the tree if and only if they are legal |
| `EndToEnd.GenerateThenParse` | components/json_generator/upstream/json_generator.c:37-308 | Generator object to parser object through a buffer of any size from two: chunks that fill the buffer and join to the text, its length, and the tokens of the tree |
| `EndToEnd.GenerateThenReadInt` | components/json_generator/upstream/json_generator.c:201-214 | An integer generated under a name comes back from a look-up by that name after parsing |
| `EndToEnd.GenerateThenReadBool` | components/json_generator/upstream/json_generator.c:180-199 | A boolean generated under a name comes back alike |
| `EndToEnd.GenerateThenReadString` | components/json_generator/upstream/json_generator.c:242-255 | A string generated under a name comes back with its terminator exactly when it fits the buffer given |
| `Claim.Expand` | components/esp_rainmaker_self_claim/esp_rmaker_claim.c:75-84 | The expanding loop writes the escaped text and its terminator, and nothing behind them |
| `Claim.EscapeMeans` | components/esp_rainmaker_self_claim/esp_rmaker_claim.c:70-82 | Line by line: each newline becomes a backslash and an n, and nothing else changes; one newline at the end is stripped |
| `Claim.EscapeNewLine` | components/esp_rainmaker_self_claim/esp_rmaker_claim.c:66-87 | In place, for every text: one newline at the end is dropped, the payload buffer holds the escaped rest, and the CSR buffer too exactly when the text is not empty and its encoding fits; else the model stops where the source leaves its buffers |
| `Claim.UnescapeNewLine` | components/esp_rainmaker_self_claim/esp_rmaker_claim.c:89-103 | In place: the buffer holds the decoded text, which `Claim.DecodingMeans` states character by character, nothing changes behind the old one, and one more zero cell is needed only when the walk overruns the terminator |
| `Claim.DecodeOne` | components/esp_rainmaker_self_claim/esp_rmaker_claim.c:92-101 | The write index never passes the read index |
| `Claim.DecodingRound` | components/esp_rainmaker_self_claim/esp_rmaker_claim.c:92-101 | What one round adds to the output is what decoding asks for, and a round that overruns the terminator ends one cell behind it |
| `Claim.DecodingMeans` | components/esp_rainmaker_self_claim/esp_rmaker_claim.c:89-103 | For every text, position by position: a backslash that is neither behind a marking one nor behind the n of one is a mark and goes, an n behind a mark becomes a newline, every other character is kept in its place; the walk oversteps the terminator exactly when a mark, or an n behind one, ends the text |
| `Claim.DecodesWritten` | components/esp_rainmaker_self_claim/esp_rmaker_claim.c:89-103 | Decoding undoes every encoder that marks any characters it likes with a backslash, all backslashes and no n among them, and names any newlines as a backslash and an n with the next character bare |
| `Claim.RoundTripExactly` | components/esp_rainmaker_self_claim/esp_rmaker_claim.c:66-103 | Unescaping undoes escaping if and only if no two newlines stand together and every backslash directly follows a newline |
| `Claim.PlainTextRoundTrip` | components/esp_rainmaker_self_claim/esp_rmaker_claim.c:66-103 | A text without backslashes, less one newline at its end, survives exactly when no two newlines stand together |
| `Claim.NeverCatchesUp` | components/esp_rainmaker_self_claim/esp_rmaker_claim.c:92-101 | Once decoding has lost a backslash, nothing later makes up for it |
| `Claim.AdjacentNewlines` | components/esp_rainmaker_self_claim/esp_rmaker_claim.c:94-101 | Two newlines in a row come back as a newline, a backslash and an n, and two different texts have the same encoding |
| `ClaimRequest.HandleClaimInitResponse` | components/esp_rainmaker_self_claim/esp_rmaker_claim.c:308-345 | The outcomes of the first answer; when the verify request is written, the payload buffer holds all of its text, spelled out, with every byte of the response as two upper-case hexadecimal digits, the high one first: it is never cut short |
| `ClaimRequest.StringsAreLegal` | components/esp_rainmaker_self_claim/esp_rmaker_claim.c:314-318 | A string copied out of an accepted answer is one the tokenizer reads to its end, so it may be generated again |
| `ClaimRequest.RequestParsesExactly` | components/esp_rainmaker_self_claim/esp_rmaker_claim.c:322-338 | The request parses to its tree exactly when the signing request in it is a legal string body |
| `ClaimRequest.RequestCarriesCsr` | components/esp_rainmaker_self_claim/esp_rmaker_claim.c:322-338 | For every PEM text without quotes, backslashes and NULs the request parses and carries the id, the digits of every response byte with the high one first and in upper case, and the escaped text, which decodes to the PEM exactly when that has single breaks only |
| `ClaimRequest.HexText` | components/esp_rainmaker_self_claim/esp_rmaker_claim.c:326-331 | The pieces issued join to two digits a byte: digit number b / 16 and digit number b % 16 of `0123456789ABCDEF` |
| `ClaimResponse.HandleClaimVerifyResponse` | components/esp_rainmaker_self_claim/esp_rmaker_claim.c:208-235 | Every outcome, and on success a certificate buffer that holds the string under the name with its marks removed, named newlines put in and every other character kept, decoded inside its two spare cells |
| `ClaimResponse.AnswerCarriesCertificate` | components/esp_rainmaker_self_claim/esp_rmaker_claim.c:203-235 | On any printed answer the certificate is the string of the first member of that name, decoded character by character; a text written in any of the ways of `Claim.DecodesWritten`, `\/` for a slash among them, is delivered as it was, and one escaped as the firmware does exactly when it has single breaks only |
| `NetworkSafety.StepKeeps` | main/main.c:382-853 | One step of any task, with any answer of a foreign call: the invariant is kept and every restart token conserved, but for the one an MQTT worker gives up; which way a token goes is for `Reports` to say |
| `NetworkSafety.RunsAreSafe` | main/main.c:455-853 | On every run from power-up, reboots included: exactly one token for key, certificate and TLS; for MQTT exactly one unless a worker ended with MQTTNoMemory since the last reboot; one user at a time of the TLS and MQTT contexts; MQTT_CONNECTED implies TLS_CONNECTED |
| `NetworkSafety.ControlIsExclusive` | main/main.c:606-690 | A live TLS worker excludes an MQTT connect, a publish and TLS_CONNECTED; a publish excludes an MQTT connect |
| `NetworkSafety.MqttKeeps` | main/main.c:652-690 | Every step of an MQTT worker conserves its token and the TLS one, but for the report of no memory, which drops its own |
| `NetworkSafety.SenderKeeps` | main/main.c:779-853 | Every step of the sender keeps the invariant and conserves the TLS and MQTT tokens; what it does with them is `Reports.FailedPublish` |
| `NetworkSafety.FlagsOnce` | main/main.c:504-521 | A failure bit is clear, and no restart pending, whenever a task sets it |
| `NetworkSafety.RoundAnswers` | main/main.c:707-752 | Whatever steps other tasks take between, one round of the handler clears every bit it saw and starts a worker of a kind exactly once if its failure bit was set, and never otherwise |
| `NetworkSafety.NothingWithoutIp` | main/main.c:538-614 | Until an IP address was received, no run from power-up claims, connects or publishes |
| `Answers.StepTells` | main/main.c:382-853 | One step of any task keeps the tie between the bits and what the calls answered last |
| `Answers.BitsTellAnswers` | main/main.c:382-690 | On every run from power-up, with any answers: PRIV_KEY and CERT success and failure bits stand only for the last verdict on a key or certificate since the last reboot, TLS_CONNECTED only for a last TLS connect that succeeded, MQTT_CONNECTED only for a last MQTT connect that did; WIFI_CONNECTED and IP_GOT are what the radio said last; the signing request and certificate held are the last ones answered; a TLS context left open is closed, once, before the next connect |
| `Reports.KeyAnswered` | main/main.c:474-521 | Once a call decided, neither bit is set until the key worker's next step, and that sets the success bit on success, the failure bit on failure, and nothing else, whatever steps other tasks take between |
| `Reports.CertAnswered` | main/main.c:551-596 | The same of the certificate worker |
| `Reports.TlsAnswered` | main/main.c:628-641 | After the answer of a TLS connect, whatever other tasks do between, the worker's next step sets TLS_CONNECTED if it succeeded, TLS_DISCONNECTED if it failed, and no other bit; until then both are clear |
| `Reports.MqttAnswered` | main/main.c:664-687 | After the status of an MQTT connect, whatever other tasks do between: success sets MQTT_CONNECTED only, no memory sets nothing, a send or receive failure clears TLS_CONNECTED, any other sets MQTT_DISCONNECTED only |
| `Reports.MqttLost` | main/main.c:676-681 | After a send or receive failure the worker then sets TLS_DISCONNECTED and MQTT_DISCONNECTED, all four bits being clear before |
| `Reports.GoodPublish` | main/main.c:841-852 | A publish that succeeds changes no bit |
| `Reports.FailedPublish` | main/main.c:841-852 | A publish that fails, whatever other tasks do before, between and after the sender's three steps: TLS_CONNECTED and MQTT_CONNECTED are cleared, then TLS_DISCONNECTED and MQTT_DISCONNECTED set while both are still clear |
| `Reports.NoPublishUntilReconnected` | main/main.c:779-787 | While MQTT_CONNECTED is clear nothing is published, until an MQTT worker reports a new connection |
| `Reports.LinkLost` | main/main.c:400-407 | A lost link clears WIFI_CONNECTED and IP_GOT, both stay clear whatever the tasks do, and then WIFI_DISCONNECTED is set |
| `Credentials.KeyStepCreds` | main/main.c:455-524 | With any answers, the key worker keeps the credential invariant at every step but one that makes a key beside a stored certificate |
| `Credentials.CertStepCreds` | main/main.c:538-599 | With any answers, the certificate worker keeps it at every step, beside a key worker that writes the same global |
| `Credentials.StepCreds` | main/main.c:382-853 | One guarded step of any task keeps it, a reboot included |
| `Credentials.CredentialsAreSafe` | main/main.c:455-629 | On every run in which the key worker never goes on to make a key while a certificate is stored, with failing reads and stores and reboots anywhere, a stored certificate belongs to the stored key, every TLS connect is given a matching key and certificate, and the success bits stand for a key in use that is stored and for a stored certificate |
| `Credentials.GenerateBreaksPair` | main/main.c:474-493 | From any state with the key worker about to make a key beside a stored certificate, three successful answers leave a stored pair that does not match |
| `Credentials.BreakingTheGuardBreaksPair` | main/main.c:474-493 | Any step that breaks the guard can be so continued: the guard is exact |
| `Credentials.ReliableRunsAreGuarded` | main/main.c:464-474 | Reads of stored items that succeed keep the guard, whatever else fails |
| `Credentials.FailedReadBreaksPair` | main/main.c:455-502 | On every device with a certificate one failing read of it leaves a stored pair that does not match |
| `Provisioning.ClaimsOnce` | main/main.c:464-551 | A device that powers up with a key and a certificate keeps both and makes and claims nothing, on every run, reboots included, whose reads of them succeed |
| `Progress.Settle` | main/main.c:705-752 | The handler can always run on until it waits for something new |
| `Progress.DriveKey` | main/main.c:455-524 | From every live state the key worker can get to its success bit |
| `Progress.DriveCert` | main/main.c:538-599 | With a key and an address, the certificate worker can get to its success bit, whatever step it is at |
| `Progress.DriveTls` | main/main.c:606-644 | With credentials, the TLS worker can get to a connection; what other answers lead to is `Reports.TlsAnswered` |
| `Progress.DriveMqtt` | main/main.c:652-690 | With credentials, an MQTT worker at any step, or one started for a lost connection, can get to MQTT_CONNECTED |
| `Progress.BringUpNeverSticks` | main/main.c:455-853 | From every state that a run from power-up with reliable reads leads to, whatever failed on it, some continuation without a reboot sets MQTT_CONNECTED if and only if no MQTT worker has ended with MQTTNoMemory since the last reboot or is about to |

## Left out

- `main/networking.c`: TLS, coreMQTT and Wi-Fi calls are library wrappers; each is an action with any outcome.
- Keys, signing requests, HMAC and HTTP in `esp_rmaker_claim.c`: claiming is an oracle that certifies the key of the request it is given, or fails; the lifetime of `pxSelfClaimData` across retries is not modelled.
- The claim `state` field: it is not an ordering the code relies on.
- Task creation is taken to succeed; a failed `xTaskCreate` would lose a token.
- Progress.BringUpNeverSticks: speaks of runs whose reads of stored items succeed, up to the state and from it on.
- The FreeRTOS tasks of main.c are steps on values, not methods of a class: they run at the same time, and a step is the unit in which they interleave.
- `esp_wifi_connect` after a Wi-Fi disconnect, utility output, sensor, payload text and thing name: input and output, or easy members.
- Floats: a number that is not an integer is a text given as it is; `strtof` and `%.*f` are not modelled. `json_tok_to_int64` is not either.
- The build of jsmn without strict primitives or parent links, but for its backward scans, which serve as a reference.
- Lengths are unbounded integers: texts of 2^31 characters and more are not modelled.
- Navigation.JParseCtx.ObjGetValTok: for a key that is the last token the source reads the cell behind the array; the model stops there with `Outside` and does not say what follows. `Navigation.KeysHaveValuesSuffice` and `Zipper.PrintedKeysHaveValues` say where that cannot be.
- Navigation.MatchIsEquality: `strncmp` is modelled inside the text; it never reads past the end of it because the text is a C string.
- Generator.JsonGen.AddToStr: asks, with a callback, for two cells or an empty text; on anything else the source never returns (`Generator.CopyLoopTerminates`).
- Claim.EscapeNewLine: for an empty text the source reads the cell before the CSR buffer, and an encoding that does not fit is copied past its end; the model stops before either.
