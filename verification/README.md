# A verified model of the Kademlia node

This project models a distributed hash table node written in C and proves what it does. The node
keeps its contacts in buckets by XOR distance, talks to its peers in packets that carry a JSON header
and a payload, names things by MD5 digests, and stores values behind tokens that it hands out on
lookups. Five parts are modelled.

- **The JSON tokener and printer.** `TokenerSpec` gives the tokener as a machine that takes one
  character at a time on an explicit stack of 32 levels. The class in `Tokener` is the code itself,
  with its tight loops, batched appends and jumps, on an array of stack records and a growing string
  buffer (`Printbuf`), and it is proved to end every call as the one-character machine does. `Grammar`
  says by plain recursion, without states or a stack, which value or which error every text gives and
  where reading stops; `GrammarRuns`, `GrammarTokens` and `GrammarValues` prove that the machine does
  just that on every text. `TokenerRuns` shows that cutting the input anywhere makes no difference.
  `Eating`, `RoundTrip` and `DepthLimit` show that parsing undoes printing, exactly up to the depth
  limit; `Unfinished` and `CutTexts` deal with texts that end too soon; `Printer` is the printing code;
  `ParsedValues` says what kind of value parsing can give; `Examples` compares characters, numbers and
  short texts with what UTF-8, C and the printer's layout make of them; `Framing` is the packet format
  built on all this.
- **The hash table.** `LinkHash` is the open-addressing table with tombstones, growth and an insertion
  order list through its entries. It refines the ordered map of `OrderedMap` for any hash function,
  and under `json_object_object_add` it never keeps a tombstone, which is why its lookups end.
  `ProbeEnds` says exactly when a lookup ends, and wears a table out until none does.
- **MD5.** `Md5Spec` is RFC 1321, and `Md5Vectors` derives two of the digests that the RFC lists. `Md5`
  unrolls the rounds with the rewritten selection functions, `Md5Stream` folds blocks and counts bytes
  in two words, `Md5Context` buffers and pads, `Md5Text` cuts messages into chunks and writes signatures
  in hexadecimal, and `Md5Ids` says which number such a text is as an id.
- **Routing and lookups.** `Xor` and `XorMetrics` treat the metric on hexadecimal ids and its
  logarithm, `Node` lists of contacts, `Routing` the table, `Nearest` the walk over the buckets and
  what it means for distances, `NearestAnswer` exactly when the contacts given are the nearest ones,
  `Lookup` the ordered lists and the rounds of a lookup, `Learning` whom a lookup learns of and asks, and
  `DistanceKey` the int by which those lists are ordered and what it does to a lookup.
- **Timed lists and the node.** `StoreFile` relates lists of timed entries to a map of last writes;
  `Lists` holds the list walk that two files share. `Maintenance` says what a maintenance step does to
  the table and the waiting list, and exactly when it keeps the ids of a bucket distinct. `Machine` puts
  table, waiting list and token list together: whatever messages, pongs, local puts and maintenance
  steps happen, as long as no local command names a contact, contacts stay in their buckets and a put
  is stored exactly when its token was granted. `Puts` tells from the inputs alone what a get is answered
  with, and `Names` has a condition on the inputs alone under which no local command names a contact.
- **Witnesses.** `Runs`, `Silence` and `NotNearest` start from a new node or an empty table and end in states that
  show what the invariants do not promise; `SmallIds` has the 32-digit ids they use.

C characters are Dafny characters, C strings end at the character NUL, and `time(NULL)` is a parameter.
Machine words are integers with explicit bounds; where MD5 shifts and masks, the operations are those
on bit-vectors. A linked list that a function relinks is a sequence held in a field or returned.

Several properties that the code or its comments suggest do not hold. Each is stated here with the
condition under which it does hold and with an input that breaks it:

- the JSON parser closes a block comment only after an odd run of stars (`Framing.StarsClose`;
  `Framing.TwoStars`);
- a packet is read back exactly when it fits the receive buffer and what follows the header does not
  look like a comment that goes wrong (`Framing.ReceivedIff`; `Framing.LongHeader`,
  `Framing.SlashPayload`);
- a value is parsed back exactly when it nests less than 32 deep (`DepthLimit.ParsesIffFits`;
  `DepthLimit.NestedArrays`);
- a text that the tokener would go on reading is refused as unfinished when a NUL comes instead exactly
  when its value at the bottom is not complete and it does not end in a comment behind a complete value
  (`Unfinished.UnfinishedIff`; `Unfinished.CommentHidesTheEnd`);
- `delete_node` removes every contact with the id and no other exactly when the list has at most one
  element, or the head has another id and behind it no two neighbours have the id
  (`Node.DeleteNodeRemoves`; `Node.HeadStays`, `Node.TwinStays`);
- the contacts given for a target that is no contact are the nearest ones exactly when, of every contact
  given and every contact left out, two of one bucket are in order of distance, and for two of
  different buckets below the target's the distance between the node and the target has the bit of the
  higher one (`NearestAnswer.UnknownNearestIff`; `NotNearest.MissesTheNearest`);
- the contacts given for a target that is a contact are the nearest ones exactly when those from it on
  are closer than those before it in its bucket (`NearestAnswer.KnownNearestIff`;
  `NotNearest.MissesBesideTheTarget`);
- the int by which a lookup compares distances is in their order exactly below 2 to the 31
  (`DistanceKey.OrderKeptIff`; `DistanceKey.OrderLost`), and of contacts at 2 to the 64 or farther a
  lookup confirms no more than two, even if those are the farthest of them
  (`DistanceKey.FewFarConfirmed`; `DistanceKey.NearestNotFound`);
- a contact answered with is confirmed exactly when there is room and no equal distance key behind the
  head (`Lookup.ResponderConfirmed`, `Lookup.ResponderDropped`; `Lookup.AnsweredAgain`,
  `DistanceKey.NearestDropped`);
- the ids of every bucket stay distinct through a maintenance step exactly when the waiting contacts
  taken in differ from each other and from the contacts that stay
  (`Maintenance.MaintainedStaysUnique`; `Runs.RepeatedContact`);
- a signature text is terminated only when the buffer length is odd or leaves room after 32 digits
  (`Md5Text.SigToString`; `Md5Text.Unterminated`);
- a lookup in the hash table ends exactly when some slot is EMPTY or holds the key
  (`ProbeEnds.LoopEndsIff`; `ProbeEnds.WornOut`).

## Model

| member | source | states |
|---|---|---|
| RoundTrip.ParsePrinted | json-c-0.9/json_tokener.c:182-628 | parsing the printed, NUL-terminated text of any value without doubles, of NUL-free strings and distinct keys, nested less than 32 deep, succeeds and gives that value, members in the same order |
| DepthLimit.ParsesIffFits | json-c-0.9/json_tokener.c:501-510 | for every such value of any depth: it parses back if and only if it fits the 32 levels, and otherwise the error is the nesting error |
| DepthLimit.NestedArrays | json-c-0.9/json_tokener.c:501-510 | null inside 31 arrays is read back, inside 32 or more it is refused |
| ParsedValues.ParsedIsKept | json-c-0.9/json_tokener.c:182-628 | whatever text parses gives a value with NUL-free strings and distinct keys that nests less than 32 deep |
| ParsedValues.ReparseSame | json-c-0.9/json_object.c:192-202 | printing what any text parsed to, and parsing again, changes nothing |
| GrammarValues.RunIsRead | json-c-0.9/json_tokener.c:182-628 | on every text, right or wrong, finished or not: a call of a new tokener gives the value or the error that the grammar gives, and its offset is where the grammar stops |
| GrammarValues.ParseIsRead | json-c-0.9/json_tokener.c:102-113 | parsing a string is reading it by the grammar |
| GrammarRuns.RunBlanks | json-c-0.9/json_tokener.c:196-344 | white space and comments are passed as the grammar passes them, and an unended comment or a stray slash ends the call as it says, before a token and behind a value |
| GrammarTokens.RunText | json-c-0.9/json_tokener.c:346-437 | strings and names: plain characters, the two-character escapes and the escapes of four digits give the text of the grammar, and every wrong or missing character its error |
| GrammarTokens.RunCode | json-c-0.9/json_tokener.c:400-437 | the weighted digits of an escape add up to the number that shifting and adding gives |
| GrammarTokens.RunLiteral | json-c-0.9/json_tokener.c:276-462 | null, true and false in either case, with one more character to end them, and the error of the first wrong letter |
| GrammarTokens.RunDigits | json-c-0.9/json_tokener.c:464-495 | the longest stretch of number characters is an int, or a double with a point or a small e in it, or the number error |
| GrammarValues.RunItems | json-c-0.9/json_tokener.c:497-530 | arrays: elements, commas, a closing bracket behind either, and the errors of everything else |
| GrammarValues.RunFields | json-c-0.9/json_tokener.c:532-612 | objects: names, colons, values, commas, a closing brace behind either, and the errors of everything else |
| GrammarValues.RunChild | json-c-0.9/json_tokener.c:497-597 | a child is read one level deeper, or the depth error is given at its first character |
| Unfinished.UnfinishedIff | json-c-0.9/json_tokener.c:618-622 | for every text without NUL after which the tokener asks for more: with the NUL behind it, the result is the error for the end of the text if and only if the value at the bottom is not complete and no comment stands open behind a complete value |
| Unfinished.CommentHidesTheEnd | json-c-0.9/json_tokener.c:618-622 | an array without its end, but with an open comment behind the first element, is not refused: the element is returned |
| CutTexts.CutShort | json-c-0.9/json_tokener.c:161-177 | wherever the printed text of a string, an array or an object is cut short, the tokener asks for more, and with a NUL there it reports the end of the text |
| Examples.Utf8Decodes | json-c-0.9/json_tokener.c:407-424 | the bytes written for any four-digit escape decode, by the rules of UTF-8 and in the shortest form, to its number |
| Examples.EscapedLetter | json-c-0.9/json_tokener.c:400-437 | an escaped letter beyond ASCII, from the quote to the NUL |
| Examples.StoredInt | json-c-0.9/json_tokener.c:481-492 | an int of 64 bits keeps its low 32, a larger one is -1, a smaller one 0 |
| Examples.ScanStops | json-c-0.9/json_tokener.c:481-492 | the digits of any number are scanned up to the first character that is no digit, with or without a minus sign |
| Examples.NoNumbers | json-c-0.9/json_tokener.c:481-492 | what is no number, and what is a double |
| Examples.Letters | json-c-0.9/json_tokener.c:276-462 | letters are compared in either case |
| Examples.Spaces | json-c-0.9/json_tokener.c:198-201 | the six blanks of the C locale |
| TokenerRuns.ChunkedIsWhole | json-c-0.9/json_tokener.c:161-177 | a call that ran out of characters, then a call on more of them, leave the same tokener, error and value as one call on both, wherever the cut falls |
| TokenerRuns.MoreInputIgnored | json-c-0.9/json_tokener.c:191-215 | a call that stopped before the end of its input is not changed by more input behind it |
| TokenerRuns.AnyCutIsWhole | json-c-0.9/json_tokener.c:182-191 | any number of calls on the chunks of an input, made for as long as the answer is to continue, leave what one call on the whole input leaves |
| TokenerSpec.Step | json-c-0.9/json_tokener.c:193-612 | one state looking at one character keeps the configuration well-formed, and every `redo_char` jump comes closer to taking the character |
| TokenerSpec.Feed | json-c-0.9/json_tokener.c:193-194 | a character is always taken or refused: the jumps on it end |
| TokenerSpec.Run | json-c-0.9/json_tokener.c:182-628 | a whole call leaves a well-formed tokener and an offset inside its input |
| Tokener.Tokener.constructor | json-c-0.9/json_tokener.c:62-71 | a new tokener stands for the initial configuration |
| Tokener.Tokener.ParseEx | json-c-0.9/json_tokener.c:182-628 | the whole parser with its tight loops and batched appends ends with the configuration, error, offset and value of the machine that takes one character per step, from any earlier state |
| Tokener.ParseString | json-c-0.9/json_tokener.c:102-113 | a call on a NUL-terminated string gives the value or the error of the one-character machine |
| Tokener.Tokener.SkipBlanks | json-c-0.9/json_tokener.c:196-201 | the white-space loop takes the same characters as single steps would, and stops where they stop |
| Tokener.Tokener.ScanPlain | json-c-0.9/json_tokener.c:349-367 | a stretch of plain characters gathered for one append is the same as one append per character |
| Tokener.Tokener.DoComment | json-c-0.9/json_tokener.c:305-318 | the loop through a block comment agrees with single steps, on every exit |
| Tokener.Tokener.DoCommentEol | json-c-0.9/json_tokener.c:320-334 | the loop through a line comment agrees with single steps, on every exit |
| Tokener.Tokener.DoText | json-c-0.9/json_tokener.c:346-369 | the loop through a string body agrees with single steps, for values and for field names |
| Tokener.Tokener.DoUnicode | json-c-0.9/json_tokener.c:400-437 | the loop over the digits of a unicode escape agrees with single steps, wherever the input ends |
| Tokener.Tokener.ScanNumber | json-c-0.9/json_tokener.c:464-479 | the loop over the characters of a number agrees with single steps, including the flag for doubles |
| Tokener.Tokener.DoNumber | json-c-0.9/json_tokener.c:464-495 | scanning and converting a number agrees with the one-character machine |
| Tokener.Tokener.DoFinish | json-c-0.9/json_tokener.c:269-274 | closing a level hands its value to the level below as the machine does, or ends the parse at the bottom |
| Tokener.Tokener.Open | json-c-0.9/json_tokener.c:501-510 | a child opens a fresh level or is refused with the nesting error |
| Tokener.Tokener.DoArray | json-c-0.9/json_tokener.c:497-530 | the array states agree with the one-character machine |
| Tokener.Tokener.DoObject | json-c-0.9/json_tokener.c:532-610 | the object states agree with the one-character machine |
| Tokener.Tokener.DoBoolean | json-c-0.9/json_tokener.c:439-462 | the literals true and false agree with the one-character machine |
| Tokener.Tokener.DoEscape | json-c-0.9/json_tokener.c:371-398 | escapes agree with the one-character machine |
| Eating.EatEscape | json-c-0.9/json_tokener.c:346-437 | reading the escaped text of any NUL-free string puts exactly that string into the buffer |
| Eating.ScanPrinted | json-c-0.9/json_tokener.c:483-484 | converting the printed form of any 32-bit integer gives the integer back |
| Eating.EatLiteral | json-c-0.9/json_tokener.c:276-291 | a literal is recognized by the character behind it, which is then looked at again |
| RoundTrip.EatValue | json-c-0.9/json_tokener.c:191-615 | at any depth that leaves room, reading the printed text of a value completes the level with that value |
| RoundTrip.EatObject | json-c-0.9/json_tokener.c:532-610 | the same for objects: each member is added under its name, in order |
| RoundTrip.NewKeyAppends | json-c-0.9/json_object.c:263-268 | adding a key that is not there yet appends the member |
| Framing.SentIff | kademlia.c:510-529 | a packet is the printed header and the payload behind it, and it is made if and only if the payload has at most 4096 bytes |
| Framing.FramingRoundTrip | kademlia.c:548-561 | for every object header that parses back and every payload that may be sent, whatever stands behind them in memory: splitting the assembled bytes gives exactly that header, payload and length, if and only if the bytes after the header do not form a comment that fails |
| Framing.PlainPayload | kademlia.c:510-529 | in particular for every payload that begins with neither white space nor a slash |
| Framing.SlashPayload | kademlia.c:552-554 | a payload that begins with a slash and no comment is never found |
| Framing.ReceivedIff | kademlia.c:1641-1646 | a packet that was sent arrives as it was sent if and only if header and payload together fit the 4196 bytes received and what follows the header does not form a comment that fails |
| Framing.LargestPayloadIsCut | kademlia.c:1641-1646 | behind any header of more than a hundred bytes the largest payload never arrives whole |
| Framing.LongHeader | kademlia.c:1539-1539 | such a header: one member whose value has a hundred characters |
| Framing.ParseHeader | kademlia.c:552-554 | what follows a printed header decides whether parsing succeeds, and with which error it does not, and never the value |
| Framing.StarsClose | json-c-0.9/json_tokener.c:305-344 | a run of stars before a slash closes a block comment exactly when the run is odd |
| Framing.TwoStars | json-c-0.9/json_tokener.c:305-344 | behind any printed header a comment that ends with a star and a slash is skipped, and one that ends with two stars and a slash makes the parse fail |
| Printbuf.Printbuf.MemAppend | json-c-0.9/printbuf.c:48-66 | appending keeps the text before, terminates it and stays in bounds; the buffer grows exactly when text and terminator do not fit |
| Printbuf.Printbuf.MemAppendFast | json-c-0.9/printbuf.h:42-49 | the inline append has the same effect as the growing one, size included |
| Printbuf.Printbuf.Reset | json-c-0.9/printbuf.c:137-141 | the text is empty and terminated, the allocation is kept |
| Printer.EscapeStr | json-c-0.9/json_object.c:84-125 | copying unescaped stretches in one append each gives the text that escapes character by character |
| Printer.PrintTo | json-c-0.9/json_object.c:207-227 | printing a value of any kind appends exactly the text that the round trip is proved for |
| Printer.PrintObject | json-c-0.9/json_object.c:207-227 | separators and members in insertion order |
| Printer.PrintArray | json-c-0.9/json_object.c:442-457 | separators and elements in order |
| Printer.ToJsonString | json-c-0.9/json_object.c:192-202 | the returned C string is the printed text, whether the buffer is new or reused |
| Examples.PrintedExample | json-c-0.9/json_object.c:207-226 | the layout of arrays and objects, letter by letter, and the escapes of slashes and control characters |
| OrderedMap.GetPut | json-c-0.9/json_object.c:263-273 | getting after adding: the new value under its key, the old ones under all others |
| OrderedMap.RemoveAt | json-c-0.9/linkhash.c:181-216 | taking one binding out of a map with distinct keys removes its key |
| OrderedMap.MembersArePut | json-c-0.9/json_object.c:263-268 | adding a member to a parsed object is the map update that the hash table implements |
| LinkHash.Table.constructor | json-c-0.9/linkhash.c:57-76 | a new table is empty, all slots EMPTY |
| LinkHash.Table.LookupEntry | json-c-0.9/linkhash.c:157-170 | when an EMPTY slot or the key is there, the probe loop ends, and it finds a slot exactly when the key is live |
| ProbeEnds.LoopEndsIff | json-c-0.9/linkhash.c:163-168 | from the home slot on, the probe loop ever comes to an exit if and only if some slot is EMPTY or holds the key |
| ProbeEnds.WornOut | json-c-0.9/linkhash.c:108-213 | for every size: adding and deleting as many keys as there are slots leaves a valid empty table in which no lookup of any key ends |
| LinkHash.Table.Insert | json-c-0.9/linkhash.c:123-154 | the binding comes last in the order list; a crowded table doubles and loses its tombstones; otherwise only the first free slot on the probe path changes |
| LinkHash.Table.FindFree | json-c-0.9/linkhash.c:133-137 | the loop of an insertion ends at the first slot on the probe path that is not live |
| LinkHash.Table.Resize | json-c-0.9/linkhash.c:90-108 | re-inserting keeps every binding and the order, leaves no tombstone, and never resizes in its turn |
| LinkHash.Table.DeleteEntry | json-c-0.9/linkhash.c:181-207 | exactly one live binding goes, the others keep their order, links mirror each other, and the slot becomes FREED; other slots are refused |
| LinkHash.Table.Splice | json-c-0.9/linkhash.c:191-205 | the four cases of unlinking join the two neighbours and move head and tail |
| LinkHash.Table.Delete | json-c-0.9/linkhash.c:210-216 | removes the key if it is there and reports whether it was |
| LinkHash.Table.Lookup | json-c-0.9/json_object.c:270-273 | looking up in a table that only `json_object_object_add` changed is looking up in the ordered map |
| LinkHash.Table.ObjectAdd | json-c-0.9/json_object.c:263-268 | whatever keys repeat, the table stays free of FREED slots, keeps an EMPTY one, keeps distinct keys, and is updated as the ordered map is |
| LinkHash.SomeEmpty | json-c-0.9/linkhash.c:128-137 | below the growth limit and without tombstones there is always an EMPTY slot |
| LinkHash.NoFreedLeft | json-c-0.9/json_object.c:266-267 | the insertion after a deletion fills the very slot that the deletion freed |
| LinkHash.FreeSlotExists | json-c-0.9/linkhash.c:133-137 | fewer entries than slots leave a slot that is not live |
| LinkHash.UnlinkedChain | json-c-0.9/linkhash.c:193-205 | after unlinking, the list from head to tail visits the remaining live slots once each, both ways |
| LinkHash.UnlinkedProbe | json-c-0.9/linkhash.c:157-170 | a FREED slot never hides a live key from a probe |
| LinkHash.InsertedProbe | json-c-0.9/linkhash.c:133-141 | filling the first free slot puts no EMPTY slot before any live key |
| Md5Spec.PadLengthIsLeast | md5.c:419-422 | the padding chosen is the shortest that reaches 56 modulo 64 with at least one byte |
| Md5Spec.LittleEndianOf | md5_loc.h:44-44 | the four bytes of a word stand low-order byte first |
| Md5Spec.WordOfBytes | md5.c:245-263 | reading the bytes of a word gives the word back |
| Md5Spec.LengthBytesCount | md5.c:441-448 | the eight bytes appended are, low-order byte first, eight times the byte count modulo 2 to the 64th |
| Md5Vectors.DigestEmpty | md5.c:67-71 | the digest of the empty message is d41d8cd98f00b204e9800998ecf8427e, as appendix A.5 of RFC 1321 says |
| Md5Vectors.DigestAbc | md5.c:67-71 | and that of "abc" is 900150983cd24fb0d6963f7d28e17f72 |
| Md5.FF | md5_loc.h:62-62 | the selection with one operation saved is the F of RFC 1321 on all words |
| Md5.FG | md5_loc.h:63-63 | F with its arguments rotated is the G of RFC 1321 on all words |
| Md5.Sums | md5_loc.h:83-104 | adding in the order of the macros gives the sum of the standard |
| Md5.OneOp | md5_loc.h:99-104 | one macro with its accumulators in their roles is one step of the standard |
| Md5.Round1 | md5.c:141-157 | the sixteen unrolled steps of round 1, registers taking turns, are steps 0 to 15 of the standard: its words, shifts and constants |
| Md5.Round2 | md5.c:159-175 | the same for steps 16 to 31 |
| Md5.Round3 | md5.c:177-193 | the same for steps 32 to 47 |
| Md5.Round4 | md5.c:195-211 | the same for steps 48 to 63 |
| Md5Stream.OneBlock | md5.c:126-217 | the body of the block loop is the compression of the standard |
| Md5Stream.BlocksAppend | md5.c:125-218 | hashing whole blocks and then more is hashing all of it |
| Md5Stream.AddLength | md5.c:113-119 | the two words count bytes modulo 2 to the 64th, carry included |
| Md5Stream.BitCount | md5.c:441-448 | the two shifted and masked words hold eight times the byte count modulo 2 to the 64th |
| Md5Context.HashBlocks | md5.c:125-218 | the loop over any number of whole blocks folds the compression over them |
| Md5Context.Context.ProcessBlock | md5.c:91-225 | the registers stay those of all blocks so far, and the count stays the length modulo 2 to the 64th |
| Md5Context.Context.TopUp | md5.c:333-358 | filling the buffer loses and repeats nothing, and bytes are left over only when the buffer is empty again |
| Md5Context.Context.Process | md5.c:323-372 | between calls at most 64 bytes are buffered, the rest went through whole blocks, and both together are the input so far followed by the chunk |
| Md5Context.Context.FinishBuffer | md5.c:398-449 | the buffer ends as the rest of the message, the padding and the bit count of RFC 1321, one or two whole blocks within its 128 bytes |
| Md5Context.Context.Finish | md5.c:393-454 | the signature is the digest of everything fed in |
| Md5Context.PaddedSplits | md5.c:413-449 | the padded message is the blocks done plus what the finish adds |
| Md5Text.Md5Buffer | md5.c:477-490 | a message hashed in one call gives its RFC 1321 digest |
| Md5Text.HashChunks | md5.c:323-372 | however a message is cut into chunks, the digest is that of the whole |
| Md5Text.SigToString | md5.c:513-538 | as many whole bytes as fit, in lower-case digits; a terminator exactly when the length is odd or exceeds 32 |
| Md5Text.Unterminated | md5.c:513-538 | a buffer of 32 characters gets the 32 digits and no NUL |
| Md5Text.SigFromString | md5.c:559-575 | the signature whose text was given |
| Md5Text.HexTextInjective | md5.c:513-538 | different signatures have different texts |
| Md5Text.SigRoundTrip | md5.c:513-575 | writing a signature and reading it back gives the signature |
| Md5Text.Hash | md5.c:67-71 | the id text is the 32 lower-case digits of the digest and a NUL |
| Md5Ids.TextNumber | md5.c:513-538 | as an id, the text of a signature is the number that its bytes are, high-order byte first |
| Xor.Associates | XORmetrics.c:157-161 | XOR of numbers is associative |
| Xor.Triangle | XORmetrics.c:157-161 | the triangle inequality |
| Xor.SameTop | node.c:219-233 | numbers with the same top bit are closer than that bit |
| Xor.LowerTop | node.c:219-233 | a number below a power of two is at a distance with the top bit of the other |
| XorMetrics.XorMetrics | XORmetrics.c:10-208 | through bit arrays and back: each upper-case digit of the result is the XOR of the digits |
| XorMetrics.DigitBits | XORmetrics.c:39-86 | the four bits of a digit in either case |
| XorMetrics.DistanceText | XORmetrics.c:163-207 | the text of the distance stands for the XOR of the two numbers |
| XorMetrics.DistanceIsMetric | XORmetrics.c:10-208 | the distance is symmetric, zero only for equal numbers, and obeys the triangle inequality |
| XorMetrics.SameValueSameDigits | XORmetrics.c:39-86 | ids of equal length and number have equal digits |
| XorMetrics.FindNodeDetails | node.c:208-237 | the floor of the base-two logarithm of the distance, below four times the id length, and -1 exactly for the same number |
| XorMetrics.LogIsTop | node.c:219-233 | the logarithm names the most significant bit |
| Lists.SkipRemoveFilters | node.c:451-463 | the walk that steps over the element after a deleted one removes all hits when there is at most one |
| Lists.SkipRemoveIff | node.c:451-463 | the walk removes all hits and nothing else if and only if no two neighbours are hits |
| Lists.RemoveAfterHead | node.c:451-463 | the walk in place drops what its recursive description drops |
| StoreFile.DeleteKeyFilters | store_file.c:89-123 | with unique keys, deletion removes its key and nothing else |
| StoreFile.CleanFilters | store_file.c:146-157 | in time order, dropping the stale prefix is dropping every stale entry |
| StoreFile.CleanNeedsOrder | store_file.c:146-157 | out of time order it is not |
| StoreFile.TimedList.Insert | store_file.c:53-83 | the key moves to the tail with its new value and time; keys stay unique, times sorted, and the list still mirrors the map of last writes |
| StoreFile.TimedList.Delete | store_file.c:89-123 | exactly the entries of other keys stay, and the map of last writes loses the key |
| StoreFile.TimedList.CleanOlder | store_file.c:146-157 | exactly the entries no older than the age stay |
| StoreFile.TimedList.FindKey | store_file.c:159-171 | the last write under the key, unless it was deleted or has expired |
| Node.LookForIP | node.c:136-149 | the first contact with the id, or none |
| Node.MovedIsLast | node.c:176-203 | with room, the others keep their order and the contact ends last, with a fresh time and count; a new contact has the address given, a known one keeps its own |
| Node.MovedWhenFull | node.c:176-203 | a full bucket moves a known contact to its end under its own address and ignores a new one |
| Node.HeadReplaced | node.c:125-131 | the head goes, and the other contact comes last under its own address, with a fresh time and count |
| Node.DeleteNodeInPlace | node.c:430-466 | the list walk in place, with the cases of empty and single lists |
| Node.DeleteNodeRemoves | node.c:430-466 | for every list: exactly the contacts with the id are removed if and only if the list has at most one element, or the head has another id and no two neighbours behind it have the id |
| Node.DeleteNodeOnce | node.c:430-466 | without repeated ids: if and only if the id does not head a longer list |
| Node.TwinStays | node.c:451-463 | of two copies side by side behind a head one stays |
| Node.HeadStays | node.c:451-463 | the head of a list of two is not deleted |
| Routing.BelongsByDistance | node.c:208-237 | an id belongs to bucket r exactly when its distance lies between 2 to the r and 2 to the r+1, and to none exactly when it is the node's own |
| Routing.RoutingTable.InsertIntoContactTable | node.c:241-260 | the bucket number, -1 for a full bucket even when it holds the contact, -2 beyond the table; only that bucket changes, and all buckets keep their capacity and placement |
| Routing.RoutingTable.RefreshBucket | kademlia.c:222-239 | for every bucket, the contacts left and the pings sent are those of the walk described on lists, in which each deletion changes the list under the walk; no other bucket changes |
| Routing.WalkedGood | kademlia.c:222-239 | the walk keeps a bucket placed and within capacity and brings in no id |
| Routing.WalkedUnique | kademlia.c:222-239 | without repeated ids: the stale front loses the contacts pinged twice, except the head of a longer bucket, and its others are pinged once more |
| Routing.WalkedStaysUnique | kademlia.c:222-239 | the walk repeats no id |
| Routing.RoutingTable.ReplaceHead | node.c:125-131 | the head gives way to a contact of the same bucket, which comes last |
| Nearest.KNearestNodes | node.c:277-337 | terminates; a known target gives the rest of its bucket from it on; otherwise copies of the first six contacts of its bucket, the lower buckets downwards, then the higher ones upwards; each stands under its id at its own address |
| Nearest.CopiesSame | node.c:309-311 | a copy has the id, address and port of the contact, and a fresh time and count |
| Nearest.MeetsAll | node.c:304-334 | the walk meets every contact of the table exactly once |
| Nearest.OutwardsPlaces | node.c:315-333 | the walk meets the own bucket first, then the lower ones from high to low, then the higher ones from low to high |
| Nearest.OutwardsTiers | node.c:315-333 | the walk never goes back to a nearer tier: own bucket, all lower ones together, each higher one |
| Nearest.TierDistance | node.c:208-237 | the top bit of a contact's distance to the target follows from the two bucket numbers |
| Nearest.EarlierIsCloser | node.c:277-337 | of two contacts in different tiers the one met first is strictly closer to the target |
| Nearest.FirstMetAreCloser | node.c:277-337 | each of the first six contacts met is strictly closer to the target than every later one in another tier |
| Nearest.NearestIffInCut | node.c:277-337 | the first six contacts met are all strictly closer than the later ones if and only if this holds among the contacts in the tier of the sixth |
| Nearest.NearestAtTierEnd | node.c:277-337 | in particular, they are when the sixth and the seventh contact met are in different tiers |
| Xor.BitDecides | node.c:219-233 | whether a number with top bit r or a smaller one is closer to x is decided by bit r of x |
| NearestAnswer.GivenOrLeftOut | node.c:277-337 | known target or not: every contact of the table is either given or left out, once |
| NearestAnswer.BitOfBucket | node.c:208-237 | of two contacts in different buckets below the target's, the one in the higher bucket is closer if and only if the distance between node and target has that bucket's bit |
| NearestAnswer.ReturnedAreCloser | node.c:277-337 | known target or not: every contact given is strictly closer to the target than every contact left out in another tier |
| NearestAnswer.UnknownNearestIff | node.c:277-337 | for a target that is no contact: all given are strictly closer than all left out if and only if pairs of one bucket are, and, for pairs of two lower buckets, the distance between node and target has the bit of the higher one |
| NearestAnswer.KnownNearestIff | node.c:288-302 | for a target that is a contact: all given are strictly closer than all left out if and only if, in its bucket, those from it on are closer than those before it |
| NotNearest.NotAlwaysNearest | node.c:277-337 | a table of 128 buckets, well placed and without repeated ids, where the one contact left out is nearer than all six met first |
| NotNearest.MissesTheNearest | node.c:277-337 | seven insertions into an empty table lead there, and the answer for the target misses the nearest contact |
| NotNearest.MissesBesideTheTarget | node.c:277-302 | three insertions into an empty table, and the answer for the second contact leaves out the first, which is nearer than the third |
| Lookup.InsertAccDistance | node.c:483-542 | terminates although the loop goes on after inserting, with the result of inserting at most once |
| Lookup.InsertAccPlace | node.c:483-542 | the old list, or the old list with exactly the new node added at one place |
| Lookup.InsertAccKeeps | node.c:510-538 | a list in order of distance key stays in order |
| Lookup.InsertAccLength | node.c:501-504 | never more than six |
| Lookup.InsertedIff | node.c:501-538 | the node goes in exactly when there is room and no element behind the head has an equal key |
| Lookup.InsertAccWhere | node.c:501-538 | in any list, ordered or not: before the head if the key is less than its, otherwise before the first later element whose key is not less, or last, unless that key is equal |
| Lookup.SplitList | kademlia.c:986-1001 | the walk that looks one element ahead finds the border between unconfirmed and confirmed contacts |
| Lookup.AddAnswered | kademlia.c:1031-1040 | contacts that are unknown and not the node itself are inserted, one after the other |
| Learning.EntersIff | kademlia.c:1031-1040 | each contact that an answer names goes into the unconfirmed part, under its address and as not asked, if and only if it is neither this node nor known and there is room and no equal key behind the head |
| Learning.OnlyStrangersEnter | kademlia.c:1031-1040 | nobody else ever enters: neither a known id nor the node's own, nor anyone the answer does not name |
| Learning.NobodyLeaves | kademlia.c:1031-1040 | and nobody leaves meanwhile |
| Learning.StrangerIsAsked | kademlia.c:979-1103 | with nobody left to ask, an answer that names one stranger keeps the lookup going, and the stranger is asked at its address |
| Lookup.AskNearest | kademlia.c:1051-1077 | the first two contacts not asked yet are marked, and every request goes to the head of the list |
| Lookup.AskedMoves | kademlia.c:1055-1064 | exactly as many contacts become asked as there are left, two at most, and nothing else about them changes |
| Learning.FirstAreAsked | kademlia.c:1055-1064 | a contact not asked before is asked exactly when fewer than two such contacts stand before it |
| Lookup.FindQuery.LookUpRound | kademlia.c:979-1103 | a round keeps unconfirmed contacts before confirmed ones, six of each at most, the confirmed ones in order; both parts, the requests, the count of answers awaited and the result are those of the steps described |
| Lookup.RoundSorted | kademlia.c:1010-1077 | an ordered unconfirmed part stays ordered through a round |
| Lookup.ResponderConfirmed | kademlia.c:1019-1025 | the responder is confirmed, at the address it answered from, when that part has room and no equal key behind its head |
| Lookup.ResponderDropped | kademlia.c:1019-1025 | and otherwise the confirmed part stays as it was |
| Lookup.AnsweredAgain | node.c:483-542 | the second of two confirmed contacts answers again and nothing changes; the only one answers again and is there twice |
| DistanceKey.DistanceAsInt | node.c:488-495 | the int is that of the distance, clamped to 64 bits, of which the low 32 are read with a sign |
| DistanceKey.OrderKeptIff | node.c:491-522 | the ints of all distances below n are in their order if and only if n is at most 2 to the 31 |
| DistanceKey.SortedByDistance | node.c:510-538 | a list of contacts all nearer than 2 to the 31 is in order of the int if and only if it is in order of distance |
| DistanceKey.InsertAccNoThree | node.c:483-542 | insertion never makes three contacts of one distance key |
| DistanceKey.ConfirmedNoThree | kademlia.c:1019-1025 | whoever answers, the confirmed part is in order and holds no distance key three times |
| DistanceKey.FewFarConfirmed | kademlia.c:1019-1025 | whoever answers, at most two confirmed contacts are at a distance of 2 to the 64 or more |
| DistanceKey.FirstTwoConfirmed | kademlia.c:1019-1025 | when all who answer are that far, exactly the first two are confirmed |
| DistanceKey.NearestDropped | kademlia.c:1019-1025 | three such contacts, of which the last and nearest is dropped |
| DistanceKey.NearestNotFound | kademlia.c:979-1103 | three rounds of a lookup, from any nearest contacts and with any contacts named, that confirm the two farther ones and drop the nearest |
| Machine.Machine.constructor | kademlia.c:84-97 | a new node has an empty table and empty lists |
| Machine.Machine.RefreshAll | kademlia.c:222-239 | every bucket goes through its walk once, and the pings of the buckets follow each other |
| Machine.Machine.Meet | kademlia.c:284-331 | a sender goes into its bucket; a stranger whose bucket is full waits under the id of the head, which is pinged, and shares the bucket with it |
| Machine.Machine.ReplaceWaiting | kademlia.c:392-404 | each candidate whose time is up replaces the head of its bucket, in order, and every bucket stays placed and within capacity |
| Machine.Machine.CleanTokens | kademlia.c:417-417 | expired tokens go, and the token list still agrees with the run |
| Machine.Machine.Maintenance | kademlia.c:212-417 | from any state a run can reach: every contact in its bucket, six at most, waiting candidates in the bucket of the contact pinged; table, waiting list and pings are exactly those of refreshing, meeting the sender and replacing; distinct ids stay distinct if and only if the candidates taken in are newcomers |
| Machine.Machine.HandlePong | kademlia.c:699-746 | the contact that answered is kept or inserted, and nobody waits for its place any more |
| Machine.Machine.HandleFindValue | kademlia.c:1190-1208 | in every run: a hit is answered with what was stored under the key last and grants nothing; a miss, when nothing was, records the token and its time |
| Machine.Machine.HandleStoreValue | kademlia.c:1449-1483 | in every run: the data is stored under the key if and only if the last get with that token that missed is at most ten seconds older than the last maintenance |
| Machine.Machine.StoreFreely | kademlia.c:1836-1837 | a value that a local command puts, or that a peer answered with, is stored without changing any token |
| Machine.Machine.ReceivePut | kademlia.c:1652-1666 | a put that arrives is stored if and only if a get with its token missed and was last recorded no more than ten seconds before it arrived |
| Machine.Machine.Receive | kademlia.c:1646-1702 | maintenance, then the handler: the record of the run grows by what the message and its times alone determine, data included; a granted put or a value leaves its data under its key and changes no other, and nothing else changes any; table and waiting list are those of the maintenance, and of the pong if it is one |
| Machine.Machine.Take | kademlia.c:1576-1702 | a local command that names no contact goes on without maintenance and leaves table and waiting list alone, a put stores its data at once; a peer's message is received after maintenance |
| Machine.Machine.Serve | kademlia.c:1546-1702 | for every sequence of peers' messages and local commands in the order of time, in which no local command names a node that is a contact when its turn comes: the table, the waiting list, the token list and the values stay right, table and waiting list are those of the inputs taken one by one, and everything answered, granted, stored and refused, with its data, is what a description without any list gives |
| Puts.LastWriteIsAnswered | kademlia.c:1190-1208 | in every run: data that a local put or an answer left under a key, and that no later input may have overwritten, is what a get of the key is answered with |
| Puts.PutBetweenGets | kademlia.c:1449-1483 | a get that misses, a put with its token, another get: when at most ten seconds lie between the first two, the second get is answered with the data put, and otherwise the put is refused and the get misses |
| Names.StrangersAreNoContacts | kademlia.c:1546-1702 | such are all runs whose local commands name only nodes that are not in the table or the waiting list at the start and are not sent by any message of the run |
| Machine.GrantedByMiss | kademlia.c:1206-1207 | behind every granted token there is a get with it that missed, and none later |
| Machine.GatedMore | kademlia.c:1449-1483 | the record of a run in which every put was rightly stored or refused stays one |
| Maintenance.OneReplacement | node.c:125-131 | one replacement keeps the ids of a bucket distinct if and only if the newcomer is not among the contacts that stay |
| Maintenance.ReplacedAt | kademlia.c:392-404 | what happens to a bucket depends only on the candidates for it whose time is up |
| Maintenance.CandidateTakesOver | kademlia.c:392-404 | a candidate that takes over stands last, under its own id and address, as just seen |
| Maintenance.BucketStaysUnique | kademlia.c:392-404 | any number of replacements keeps the ids distinct if and only if the candidates still there at the end differ from each other and from the contacts that stay |
| Maintenance.PreparedStaysUnique | kademlia.c:222-331 | the refresh and the sender repeat no id |
| Maintenance.MaintainedStaysUnique | kademlia.c:212-404 | after a whole maintenance step the ids of every bucket are distinct if and only if in every bucket, refreshed and met, the matured candidates are such newcomers |
| Maintenance.WaitingIsNotConsumed | kademlia.c:392-404 | of two maintenance steps after the time is up, the second puts the candidate into the bucket once more, when nothing there was due for a refresh |
| Runs.RepeatedContact | kademlia.c:212-404 | from a new node, seven senders and two maintenance steps lead to a valid state with the same contact twice in a bucket |
| Silence.SilentContact | kademlia.c:212-239 | from a new node: a contact met at time 0 that never answers is pinged at 301 and at 303 seconds, at its own address, and is gone at 305 |

## Left out

- Sockets, select, name resolution, commands from standard input, traces and printing: a received message is an argument of a step, a request sent is a result.
- JSON doubles: a double keeps the text of its token; what `%lf` prints of it is not modelled, because it loses precision.
- ParsedValues.ReparseSame: does not cover texts whose value holds a double, because printing changes it.
- Printer.PrintTo: does not print values that hold a double, and so neither do the printers built on it.
- Printer.PrintObject: does not print objects that hold a double.
- Printer.PrintArray: does not print arrays that hold a double.
- Printer.ToJsonString: does not print values that hold a double.
- `%d` beyond 64 bits is modelled as the C library of the common systems stores it: clamped to 64 bits, then cut to 32.
- Allocation failure, freeing, reference counts and the growth of array objects: values are sequences, and reads of a node just freed (`insert_to_tail_file`, `delete_key`, `delete_node`, `kademHandlePong`) are taken as intended.
- Framing.FramingRoundTrip: a buffer that holds no NUL is taken to end the input, where the C code would read on behind it.
- The counters of the hash table and the callbacks that free its entries.
- LinkHash.Table.LookupEntry: does not terminate in C when neither an EMPTY slot nor the key is there; its precondition says so, `ProbeEnds.LoopEndsIff` shows that there is no other such case, and `LinkHash.Table.ObjectAdd` that additions never lead there in a table of at least three slots.
- The test `count > size * 0.66` is written in whole numbers.
- The loads of the first round of MD5 are done before the round, and byte order is that of a little-endian machine.
- Md5Context.Context.Process: a chunk so long that adding the buffered bytes overflows 32 bits is excluded, because the C sum wraps there.
- Md5Text.SigFromString: characters that are not lower-case hexadecimal digits are excluded, because `strchr` gives a null pointer for them.
- Ids of unequal length, and for buckets the node's own id, are excluded: the C code reads uninitialized bits or indexes the table with -1.
- Lookup.InsertAccDistance: the distance key is any integer function of the id; `DistanceKey` has the one that the code computes, with `%x` as the C library of the common systems stores it, and ids that are not peers' have the key 0 there.
- `create_node_from_string` returns no value in C and writes beyond its buffers; the contact it builds is taken as returned.
- A known target's result of `k_nearest_nodes` shares its nodes with the table; only the sequence is modelled.
- Machine.Machine.Serve: does not cover runs in which a local command names a contact. Such a get, put, ping or search puts the contact's own list nodes into a query list, which later rounds relink and the maintenance prunes, and then contacts do not stay in their buckets; that aliasing is not modelled. Local commands other than put change neither values nor tokens here.
- Machine.Machine.Take: a local put that meets an empty table reads through a null pointer after storing (kademlia.c:1888); it is taken to go on.
- The copy of a query record back into the query list after a round, the test that follows a finished lookup, the refresh of query lists in the maintenance, and the replies to local commands.
- What a message asks or answers, and whether it answers a ping, are inputs of a step; transaction ids and the list of queries sent are not part of the node's state here. One maintenance step sees one time.
- Machine.Machine.HandleFindValue: the contacts sent with a miss are left to `Nearest.KNearestNodes`.
