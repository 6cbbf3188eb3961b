# Kitting database and base64 encoder

Two components of the repository, modelled and proved.

**The kitting database.** `include/operations.php` imports a text into the tables `classes`, `tags`, `orders`,
`kits` and `groups`; `include/ajax.php` serves batches of requests that move pieces between `classes.inventory`
and `groups.count`, attach RFID tags and set kit statuses; `reset.php` sets a new baseline. Every SQL statement is
one atomic function on the tables (`Tables.dfy`). The scripts are methods of the class `Kitting.Database`, which
changes the tables in place, each proved against those functions. The groups and kits tables carry no key constraint in the
model: that their keys are unique is proved of every import, and it is what makes the allocator conserve stock.

- `Rows`, `Tables`, `Invariants`: rows, statements, what every reachable state satisfies.
- `Allocator`: requests one at a time, and runs of them. `Interleaving`: any number of clients, each between two
  statements, resets in between. `Serializability`: what locking would buy. `Witnesses`: interleavings that go wrong.
- `Text`, `Importing`: one line of an import. `Reading`: the dispatch of lines in terms of their characters and of the
  headers above them, to which every text predicate of the other modules is tied. `ImportMeaning`, `ImportCatalogue`, `ImportStock`: what an import leaves
  in the tables, read off the text without running it. `ImportWitness`: a text whose import duplicates a tag.
  `Listing`: the answer. `EndToEnd`: import, serve, reset.

**The encoder.** `base64_encode` in `base64.c`, over a caller's buffer, with 8-bit masks and a 32-bit `int`
(`Bits`, `Base64`, `Base64Encoder`), against an encoder by groups and a strict decoder after sections 3.5 and 4 of
RFC 4648.

What the proofs show about the code beyond its own comments:

- Two takes on one group that overlap between their two UPDATEs lose or create stock (`Witnesses.OverlapLosesStock`,
  `Witnesses.OverlapCreatesStock`; how much, for all values: `Witnesses.OverlapMovesStock`). A statement changes the
  total exactly if it overwrites a count its take did not read (`Interleaving.StockKeptExactly`). Inventory stays
  non-negative all the same.
- One lock per group and one for tagging takes, held for the whole take, would make every interleaving equal to
  its requests served one at a time, at every moment when nobody is inside a request, with resets at such moments as
  events among them (`Serializability.SerializableWithResets`); include/ajax.php:47 asks for such locks.
- Two tag queries that run before either tag is attached can give two groups one tag (`Witnesses.OverlapDuplicatesTag`,
  exactly when: `Interleaving.AttachCollidesExactly`).
- An import does not make tags unique (`ImportWitness.ImportDuplicatesTag`); exactly when it does is
  `ImportMeaning.ImportedTagsDistinct`.
- Lines under a header with an unknown name are read as inventory lines (`ImportCatalogue.UnknownHeaderStocks`), because
  the header sets the mode to `false` and `false == 0` holds.
- The encoder wants a buffer two characters longer than the encoding, although encoding and NUL need only one;
  the comment at `websocket.h:33` sizes its buffer accordingly.

Assumptions on the schema, which is not part of this model: `kit_count`, `group_count` and `status` start
at 0, `classes.id` and `orders.id` are serials from 1, `tags.id` is a primary key, a new class has inventory 0, and
there are no other constraints or triggers. NULL and `''` in `groups.tag_id` both mean "no tag". A tag `''` may be in
`tags`: a TAGS line of one character inserts it. Character classes are those of ASCII; `(int)` of a text skips white
space, reads a sign and digits, and ignores the rest, as in PHP 5.

## Model

| member | source | states |
|---|---|---|
| Kitting.Database.ImportText | include/operations.php:31-97 | the import loop, over whatever was in the tables, ends with exactly the tables that the text means, well formed |
| Kitting.Database.ImportLine | include/operations.php:40-95 | the body of the import loop changes tables, mode, order and kit as one step of that meaning |
| Kitting.Database.CreateClass | include/operations.php:6-16 | the returned id is in the table, has the normalised name, and is new only if no class had the name |
| Kitting.Database.NewGroup | include/operations.php:88 | the loop over the kit rows equals the UPDATE ... INSERT statement on any kits table, duplicate rows included |
| Kitting.Database.AddItem | include/operations.php:70-88 | class and tag are created even if no kit is open, the group only if one is |
| Importing.StepGood | include/operations.php:39-96 | every line keeps unique and dense keys, existing references, distinct class names, known tags, and the cursor on the last kit of the last order |
| Importing.ImportGood | include/operations.php:31-97 | at every line of every import: kits of an order are 0..kit_count-1, groups of a kit 0..group_count-1, the current kit belongs to the current order |
| Importing.InsertGroupIsOneRow | include/operations.php:88 | on unique kits the statement inserts exactly one row, numbered by the kit's old counter, and counts that kit up |
| ImportMeaning.ImportTraced | include/operations.php:35-60 | mode, order and kit at every line are those of the last headings above it; orders are numbered by their [ORDER] headings |
| ImportMeaning.OrdersAreTheHeadings | include/operations.php:47-58 | there is one order per [ORDER] heading, and its kit_count is the number of [KIT] headings below it and above the next |
| ImportMeaning.ImportCounted | include/operations.php:53-57 | every kit's group_count is the number of item lines placed in it; no line is placed in a kit that does not exist |
| ImportMeaning.GroupsAreTheItems | include/operations.php:70-88 | the groups table is exactly the item lines below an open kit, in file order, each in the kit opened last, with the fields of its line and the class of its name |
| ImportMeaning.RowFields | include/operations.php:73-88 | row k has, of the fields of its line, target 0, count 1, tag 2 (NULL if empty), flag 3 (set unless `f` or empty), the class named by the text after the fourth comma less one character, and the next id in the kit opened last |
| Reading.NothingImported | include/operations.php:32-38 | an import starts from empty tables, serial ids from 1, no order and no kit |
| Reading.QuietLine | include/operations.php:40-95 | empty lines, comments, brackets without a header, lines below [ORDER], [KIT] and [USERS], and lines with the wrong number of fields leave tables, mode, order and kit as they were |
| Reading.StockingLine | include/operations.php:60-63 | below no header, [INVENTORY] or an unknown header, a two-field line gives the class it names its number and changes nothing else |
| Reading.TagsLine | include/operations.php:64-65 | below [TAGS] a line adds its text less the last character to the tags and changes nothing else |
| Reading.OrderHeader | include/operations.php:47-50 | [ORDER] inserts the next order, without kits, and closes the kit |
| Reading.KitHeader | include/operations.php:53-57 | [KIT] inserts the next kit of the open order, without groups and with status 0; without an order it does nothing |
| Reading.OtherHeader | include/operations.php:45 | any other header changes no table, order or kit |
| Reading.SectionNames | include/operations.php:45 | which name selects which mode |
| Reading.SectionIsLastHeader | include/operations.php:35-45 | the mode of a line is that of the last header above it, INVENTORY if there is none |
| Reading.StocksNameMeans | include/operations.php:40-63 | a line stocks a class if and only if it is neither empty, comment nor bracket, stands below no header, [INVENTORY] or an unknown header, and has two fields of which the first names the class |
| Reading.PlacedMeans | include/operations.php:70-73 | a line is placed if and only if it is such a line below [ITEMS] with at least five fields and a kit is open |
| Reading.ClassesMean | include/operations.php:6-16 | a class exists if and only if such an inventory or item line names it |
| Reading.TagsMean | include/operations.php:64-85 | a tag exists if and only if a line below [TAGS], less its last character, or the third field of an item line gives it |
| Reading.OrdersMean | include/operations.php:47-57 | orders are the [ORDER] headers, numbered from 1, each with as many kits as [KIT] headers follow it before the next |
| Reading.OpenKitMeans | include/operations.php:47-57 | the open kit is the last kit of the last order, if that has one |
| ImportMeaning.PlacedLinesAll | include/operations.php:70-88 | the list of placed lines leaves none out and holds no other |
| ImportMeaning.PlacedLinesAscend | include/operations.php:39 | the list of placed lines is in file order without repetition |
| ImportMeaning.KeysAscendAlongTheFile | include/operations.php:47-58 | group keys strictly increase along the file, so the table is sorted by (order, kit, id) |
| ImportMeaning.ItemNameIsTheRest | include/operations.php:78-79 | the class name of an item is the text after its fourth comma, commas included, less one character |
| ImportMeaning.ImportedTagsDistinct | include/operations.php:82-88 | imported tags are pairwise distinct if and only if no two placed lines give the same non-empty tag |
| ImportWitness.ImportDuplicatesTag | include/operations.php:82-88 | a text with two item lines naming one tag, whose import puts the tag on two groups |
| ImportStock.ImportedStock | include/operations.php:60-88 | after an import every class holds, in inventory and counts, its stated inventory plus the counts of the placed item lines naming it |
| ImportStock.ImportedShortage | include/operations.php:63 | an import leaves no negative inventory if and only if the text states none for a class it names |
| ImportCatalogue.TagsAreTheDeclared | include/operations.php:18-20 | a tag is in the table if and only if a TAGS line or an item line declares it |
| ImportCatalogue.ClassesAreTheNamed | include/operations.php:10-15 | a class exists if and only if an inventory or item line names it after normalisation |
| ImportCatalogue.OneIdPerName | include/operations.php:10-13 | a name in use always maps to its one id, and looking it up changes nothing |
| ImportCatalogue.LastInventoryLineWins | include/operations.php:60-63 | every class ends with the inventory the text states for its description, the default if it states none |
| ImportCatalogue.UnknownHeaderStocks | include/operations.php:45-63 | a two-field line below a header with an unknown name sets the inventory of the class it names |
| ImportCatalogue.NoLineStates | include/operations.php:14 | the stated inventory of a class that no inventory line names is 0 |
| ImportCatalogue.LastLineStates | include/operations.php:60-63 | the stated inventory is the number of the last two-field inventory line naming the class |
| Text.JoinTail | include/operations.php:72-78 | joining the parts of a split from part n on gives the text after the n-th separator |
| Text.JoinSplit | include/operations.php:34 | joining inverts splitting |
| Text.SplitJoin | include/operations.php:34 | splitting inverts joining on parts without the separator |
| Text.PartsAreClean | include/operations.php:72 | no field contains a comma |
| Text.ClassNameNormalises | include/operations.php:7-8 | the normalised name is a prefix of name characters, the whole name if and only if it has no others, and normalising is idempotent |
| Text.ClassNameIsLongest | include/operations.php:7-8 | no longer prefix of the name consists of letters, digits and white space |
| Text.DropLastDrops | include/operations.php:65 | `substr(.., 0, -1)` removes exactly the last character |
| Text.HeaderNameMatches | include/operations.php:43 | a line is a header with a name if and only if it starts with that alphanumeric name in brackets |
| Text.IntValReadsNumerals | include/operations.php:63 | `(int)` reads back every decimal numeral, negative ones too, whatever non-digit follows |
| Text.IntValReadsPlus | include/operations.php:74-75 | so with a plus sign in front |
| Text.IntValOtherwise | include/operations.php:74-75 | white space in front is skipped; anything else, and a bare sign, reads as 0 |
| Kitting.Database.TakeFromStock | include/ajax.php:48-50 | the search and the guarded deduction are the joined UPDATE: same new inventories, same affected-rows test |
| Invariants.TakeIsTheStatement | include/ajax.php:48 | on unique keys the UPDATE ... FROM, which may pick any matching row, has exactly one outcome |
| Invariants.ConservationNeedsUniqueKeys | include/ajax.php:48-51 | with two groups under one key the two statements change the stock of the class |
| Kitting.Database.CreateTag | include/ajax.php:2-6 | the tag returned is in the table and on no group, and is NULL only if there is none such |
| Kitting.Database.ServeOne | include/ajax.php:40-57 | one request has exactly its effect on the tables, and its tag query answered what it may answer |
| Kitting.Database.ServeBatch | include/ajax.php:39-61 | the batch is a legal run of its requests in order; it conserves every class's stock and touches nothing outside the kit |
| Kitting.Database.ListKit | include/ajax.php:63-68 | the rows fetched are the selected groups in order, each joined with its class |
| Kitting.Database.HandleAjax | include/ajax.php:31-70 | an error if and only if the parameters name no existing kit, and then nothing changes; otherwise the batch is run and row i of the answer is group i of the kit with its class |
| Listing.ListingIsDense | include/ajax.php:63-68 | the listing of a kit has exactly group_count rows and row i has id i |
| Kitting.ListedKit | include/ajax.php:63 | in a well-formed state every listed row finds its class, and every group of the kit is listed |
| Allocator.TakeStep | include/ajax.php:48-51 | a take that the class can satisfy sets the count and pays exactly the difference; any other changes nothing |
| Allocator.TakeAndWriteStock | include/ajax.php:48-51 | the two statements together neither create nor lose a piece |
| Allocator.TagStep | include/ajax.php:53-54 | a group with count = target gets a tag that no group had, NULL if and only if no tag is free; all else stays |
| Allocator.StatusStep | include/ajax.php:42-56 | a complete request with status n >= 0 sets the status of the addressed kit to n, without a status to 0, and changes nothing else |
| Allocator.TakeRequest | include/ajax.php:42-54 | a complete request with a negative status has exactly its effect: if the class holds the pieces still missing it pays them and the count becomes the value; then, if asked for and count = target, the tag of the query is attached |
| Allocator.IdleRequest | include/ajax.php:40-56 | a request that lacks id, value or tag, or addresses no row, changes nothing |
| Allocator.QueryAnswers | include/ajax.php:2-6 | the tag query may answer any tag that no group has, NULL if and only if every tag is in use |
| Allocator.AllAcceptedMeans | include/ajax.php:48 | a run is without rejection if and only if every take of it meets its guard when its turn comes |
| Allocator.RunStock | include/ajax.php:39-61 | every run of requests conserves inventory plus counts of every class |
| Allocator.RunNoShortage | include/ajax.php:48 | no run makes an inventory negative |
| Allocator.RunWellFormed | include/ajax.php:39-61 | every run keeps keys, references and known tags, and keeps real tags pairwise distinct |
| Allocator.TaggedGroupsBounded | include/ajax.php:53-54 | with distinct known tags the tagged groups never outnumber the tags |
| Allocator.AcceptedInventory | include/ajax.php:39-51 | without rejections an inventory ends at its initial value minus, over its groups, last requested value minus initial count |
| Allocator.PathIndependence | include/ajax.php:39-51 | two such runs that end with the same requested values end with the same inventories and counts |
| Allocator.RepeatedTake | include/ajax.php:48-51 | an accepted take repeated at once is accepted again and changes nothing |
| Allocator.BatchFrame | include/ajax.php:48-56 | a batch on one kit leaves other kits' rows and the inventories of classes it does not use as they were |
| Interleaving.RunSafe | include/ajax.php:47-56 | every state of every interleaving, resets included, keeps unique dense keys, existing references and known tags |
| Interleaving.NeverShort | include/ajax.php:48 | no interleaving makes an inventory negative, not even with overlapping takes and stale counts |
| Interleaving.Conservation | include/ajax.php:47-51 | in every interleaving inventory plus counts plus pieces in flight is the initial total plus the sum of count read minus count overwritten |
| Interleaving.StockKeptExactly | include/ajax.php:47-51 | a statement keeps the total of a class if and only if it does not overwrite a count other than the one its take read |
| Interleaving.OverlapDrift | include/ajax.php:47-51 | when two clients stand between their two updates on one group and the first read its count right, their two writes move the total by the count the second read less the value of the first |
| Interleaving.ExactWithoutOverlap | include/ajax.php:47-51 | if takes on one group never overlap, the total is exactly conserved |
| Interleaving.DistinctWithoutTagOverlap | include/ajax.php:53-54 | if tag queries and attachments do not overlap, real tags stay pairwise distinct |
| Interleaving.AttachCollidesExactly | include/ajax.php:54 | attaching a tag makes tags collide if and only if the group is complete and the tag is on another group |
| Interleaving.SoloRequest | include/ajax.php:40-57 | the statements of one request, uninterrupted, have the effect of the sequential request |
| Interleaving.SoloBatch | include/ajax.php:39-61 | a batch served alone is one of the interleavings and ends in the sequential result |
| Interleaving.ConservationFromReset | reset.php:24-27 | after the last reset of any run, the total of a class is 2500 plus the pieces in flight at the reset plus the drift since |
| Interleaving.ExactFromReset | reset.php:24-27 | if no take is half done at that reset and takes on one group do not overlap after it, the total is 2500 |
| Serializability.ExecExclusive | include/ajax.php:47-54 | the starting discipline keeps at most one client busy per group and at most one in a tag section |
| Serializability.CountBooked | include/ajax.php:51 | the second statement of a take changes nothing in the tables with pending counts booked |
| Serializability.TagLater | include/ajax.php:53-54 | attaching a tag commutes with every later request that takes another group without a tag |
| Serializability.Serializable | include/ajax.php:47-54 | under the discipline every interleaving without resets, from one moment when nobody is inside a request to another, leads to the tables of its requests, tagging ones included, served one at a time in the order of their first statements |
| Serializability.SerializableWithResets | reset.php:24-27 | the same for runs with resets at such moments: they are events of the serial order |
| Serializability.RestDoesNotOverlap | include/ajax.php:39-61 | while nobody is inside a request nothing overlaps, so the conditions of the theorems on overlap can be met |
| Serializability.OneAtATimeIsDisciplined | include/ajax.php:39-61 | starting requests only at such moments obeys the discipline |
| Serializability.BatchesInOrder | include/ajax.php:39 | every client starts exactly the requests of its batch, in their order |
| Witnesses.OverlapMovesStock | include/ajax.php:47-51 | for all inventories, counts and values that the guards admit, two overlapping clients move the stock by the count less the first value |
| Witnesses.OverlapLosesStock | include/ajax.php:47-51 | two clients, reachable from a legal state, turn five pieces into four |
| Witnesses.OverlapCreatesStock | include/ajax.php:47-51 | two clients, reachable from a legal state, turn five pieces into six |
| Witnesses.OverlapDuplicatesTag | include/ajax.php:53-54 | two clients, reachable from a legal state with distinct tags, put one tag on two groups |
| Kitting.Database.ResetAll | reset.php:24-27 | the four bulk updates set every inventory to 2500 and every group to count 0, no tag, not archived, and change nothing else; so every class has 2500 pieces |
| Invariants.ResetBaseline | reset.php:24-27 | every group is unarchived with count 0 and the tag '', every inventory is 2500, and nothing else changes; no real tag is left and every class has 2500 pieces |
| EndToEnd.PreparedBaseline | reset.php:24-27 | after any import and a reset the tables are well formed, tags distinct, every stock 2500 |
| EndToEnd.ServedOneAtATime | include/ajax.php:39-61 | after any import and reset, any run keeps inventory + counts = 2500 and inventory >= 0 of every class, counts at most 2500, tags distinct and no more tagged groups than tags |
| EndToEnd.CountsStayInRange | include/ajax.php:43-51 | if no request asks for a negative value, every single count stays between 0 and 2500 |
| EndToEnd.ImportedBaseline | include/operations.php:31-97 | after any import the tables are well formed, and every class has the pieces the text gives it |
| EndToEnd.ServedAfterImport | include/ajax.php:39-61 | after any import, any run of requests keeps integrity, exactly the pieces of the text, and distinct tags if the import left them distinct |
| EndToEnd.ServedConcurrently | include/ajax.php:47-56 | every state reachable from an import by any interleaving of takes, tags, statuses and resets keeps integrity, and non-negative inventories if the text states them |
| EndToEnd.ServedAndBooked | include/ajax.php:47-51 | in every interleaving after an import, inventory, counts and pieces in flight are the pieces of the text plus the drift of overlapping takes |
| EndToEnd.ServedWithoutOverlap | include/ajax.php:47-51 | without overlap on a group they are exactly the pieces of the text |
| EndToEnd.ServedAfterReset | reset.php:24-27 | whatever the run did before, from a reset on with no take half done, every class has 2500 pieces while takes on a group do not overlap, and no inventory is negative |
| EndToEnd.LogKeeps | include/ajax.php:39-61 | every serial order of requests and resets keeps integrity, distinct tags, non-negative inventories, and the pieces of each class since the last reset |
| EndToEnd.ServedWithLocks | include/ajax.php:47-54 | an import served concurrently under the starting discipline, resets at rest included, equals an import served one request or reset at a time; every class has exactly the pieces of the text, 2500 after a reset |
| EndToEnd.ServedWithoutTagOverlap | include/ajax.php:53-54 | after an import with distinct tags, or any import and reset, interleavings without overlapping tag sections keep real tags distinct and tagged groups no more than tags, resets included |
| Base64Encoder.EncodeInto | data/brickd-2.2.1/src/brickd/base64.c:42-80 | returns the encoding's length L with the encoding and a NUL written if and only if out_len >= L + 2, else -1 with exactly the whole quads that fit; every other byte of the buffer keeps its value; on success the L characters written decode to the input, for all lengths; no access outside the buffer and no overflow |
| Base64Encoder.EncodeGroup | data/brickd-2.2.1/src/brickd/base64.c:46-72 | one pass consumes one group and extends the written text by its quad, or stops with a whole-quad prefix |
| Base64Encoder.Terminate | data/brickd-2.2.1/src/brickd/base64.c:73-79 | the second capacity check fails exactly if out_len < L + 2; the NUL goes to index L |
| Base64Encoder.ReadTriple | data/brickd-2.2.1/src/brickd/base64.c:51-59 | the inner loop reads the next one to three octets and fills up with zeros |
| Base64Encoder.MaskedIndices | data/brickd-2.2.1/src/brickd/base64.c:65-68 | the masks and shifts are the four base-64 digits of the big-endian 24-bit group |
| Base64Encoder.OverflowsExactlyOutside | data/brickd-2.2.1/src/brickd/base64.c:46-75 | following the loop, some `done + 4` or `done + 1` overflows `int` if and only if the arguments are outside the range that the encoder's contract requires |
| Base64Encoder.OneRunFits | data/brickd-2.2.1/src/brickd/base64.c:61-63 | the number of characters left behind by a failed call is determined by the lengths alone |
| Base64Encoder.TableEntry | data/brickd-2.2.1/src/brickd/base64.c:39-40 | the entry of the lookup table is the letter of RFC 4648 |
| Base64Encoder.EncodeDigest | data/brickd-2.2.1/src/brickd/websocket.c:181-182 | the 30-byte buffer for a SHA-1 digest is exactly the least length that succeeds, and what is written decodes to the digest |
| Base64.LetterIsTableEntry | data/brickd-2.2.1/src/brickd/base64.c:39-40 | the lookup table is the base 64 alphabet of table 1 of RFC 4648 |
| Base64.DigitsOfGroup | data/brickd-2.2.1/src/brickd/base64.c:65-68 | the digits of a 24-bit group cut out of its three octets |
| Base64.QuadDecodes | data/brickd-2.2.1/src/brickd/base64.c:65-68 | one group: strict decoding, with zero pad bits, inverts encoding |
| Base64.DecodedQuad | data/brickd-2.2.1/src/brickd/base64.c:65-68 | one group: a quad that decodes is the encoding of what it decodes to |
| Base64.DecodesExactlyItsEncoding | data/brickd-2.2.1/src/brickd/base64.c:42-80 | a text decodes to given octets if and only if it is their encoding |
| Base64.EncodeInjective | data/brickd-2.2.1/src/brickd/base64.c:42-80 | different octets have different encodings |
| Base64.EncodeLength | data/brickd-2.2.1/src/brickd/base64.c:70-79 | the encoding of n octets has 4 * ceil(n / 3) characters |
| Base64.EncodeAppend | data/brickd-2.2.1/src/brickd/base64.c:46-71 | whole groups encode independently of what follows them |
| Base64.PaddingPlaces | data/brickd-2.2.1/src/brickd/base64.c:67-68 | a character is `=` if and only if it is one of the last (3 - n mod 3) mod 3 |

## Left out

- Kitting.Database.TakeFromStock: requires unique keys, as do ServeOne and ServeBatch, because the joined UPDATE is otherwise nondeterministic; every import establishes them and every statement keeps them.
- Base64Encoder.EncodeInto: requires arguments for which the C code does not overflow `int`, which is otherwise undefined behaviour; the condition is proved exact. The input is the sequence of the unsigned values that its characters have as `unsigned char`; an input that overlaps the output buffer is not modelled.
- EndToEnd.ServedAfterReset: requires the four statements of a reset to come together while no take is half done; Interleaving.ConservationFromReset says what a half done take adds, and resets whose statements are interleaved with takes keep integrity only.
- Serializability.SerializableWithResets: does not cover resets that start while somebody is inside a request.
- Requests arrive as typed fields: JSON decoding, PHP's loose conversions of `id`, `value` and `tag`, SQL quoting and the page parameters' text are not modelled. A missing status reads as 0 and selects the status branch.
- Integer widths of the database columns and the saturation of `(int)` on numerals beyond the machine's range; the tables hold unbounded integers.
- The USERS section of an import (include/operations.php:90-94), password hashing, messages and `kits.user_id`.
- Columns of `classes` that only the listing shows (pn, sn, weight, location).
- An import that truncates the tables while takes are in flight, and listings and kit checks inside an interleaving, which only read.
- PostgreSQL internals: one statement is one atomic step; no locks, snapshots or failing queries, apart from a duplicate tag and the malformed group insertion without an open kit.
- The print and cabinet branches (include/ajax.php:8-29), the login, the HTML pages and their scripts: user interface and process execution.
- `scripts/`: device bindings and FTP transfer, constant tables around calls into modules that are not part of this model.
- The rest of the Brick Daemon, SHA-1 and the WebSocket protocol around the one call of the encoder.
