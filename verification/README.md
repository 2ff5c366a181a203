# A verified model of the Kadena app core

A Dafny 4.11 model of the device-independent crate `kadena-core`, and of the memory layout in `src/platform.rs`:
what the app accepts, what it shows before it signs, and what it then signs.

    dafny verify dfyconfig.toml

Bytes are characters below 256, so that the byte strings of the program are string literals here. Methods follow
the program's own loops and fields, and are proved against functions; the theorems are about those functions.

| part | files |
|---|---|
| JSON: syntax trees and their prints, the tokenizer as a machine without a stack, the tokenizer in place, what it recognises | `Syntax`, `JsmnSpec`, `Jsmn`, `Recognition`, `Documents` |
| lookups over the flat token array, against the tree; `read_json` | `Json`, `Lookups`, `Integrity`, `Nodes` |
| structured transfers: the request, its template, the round trip through the tokenizer | `TransferSpec`, `Transfer`, `Framing`, `Template`, `Pact`, `TemplateReading`, `TemplateLookups` |
| the maximal fee in exact decimal arithmetic | `Decimal`, `FeeSpec`, `Fee` |
| the transaction buffer, and the template over the end of its RAM | `Buffering`, `Platform` |
| review items: the slot builder, the list it builds, the same in terms of the tree, clear and blind signing | `Principal`, `ItemSpec`, `ItemLookups`, `Items`, `Review`, `ReviewProof`, `MetaKeys`, `ClearSigning`, `Signers` |
| the text of an item: the specification, the renderer, which items can be shown, what each says in terms of the tree | `RenderSpec`, `Rendering`, `RenderProof`, `Showable`, `ItemTexts`, `Notations` |
| from a byte to the screen: which texts look alike, which items hold a backslash, what clear reviews show | `Display`, `Texts`, `Spelling`, `TemplateBytes`, `Screen`, `Doubles` |
| from the bytes of a transaction to its review | `ParserSpec`, `TxParser`, `Acceptance`, `TransferReview`, `RequestAcceptance`, `JsonAcceptance`, `ReviewTexts`, `RequestTexts`, `Reviewable` |
| the command state machine: its steps, chunk reassembly and completion, whole runs, the application object that takes the steps | `AppSpec`, `Paths`, `Reassembly`, `Completion`, `Runs`, `Signatures`, `Addresses`, `Replies`, `Delivery`, `Sending`, `App`, `EndToEnd` |

How the parts meet:

- `Application` holds the fields, the buffers and the parsed transaction as the program does, with a ghost state, a
  ghost history of what the signing commands carried, and the ghost run that its calls so far are. `Handle`,
  `AddressDone` and `SignDone` take exactly the steps of `AppSpec`; what is pending can be shown (`ReviewItem`) and
  signed from memory as it was reviewed.
- `Runs` is about every sequence of those steps: the state never disagrees with the history, and a signature is only
  ever of what was reviewed last. `Signatures` and `Addresses` say what the answers are in terms of what was sent: which
  path, which bytes, which key.
- `Acceptance` and `TransferReview` say what such a review means, from the bytes: the syntax tree of the text that was
  parsed, the one signer entry that is the device's, and what its capabilities grant. `EndToEnd` joins the two: it
  speaks of every run and of what the screen says at its end.
- `Screen` goes on to the bytes of the screen: of every accepted review, which of its values can hold a backslash, and
  that in a clear review different values look different.
- `ItemTexts`, `ReviewTexts` and `RequestTexts` say what every item says, `Pact` what the code of a template is, and
  `Notations` what the numbers, the hexadecimal and the base64 are, each apart from the code that writes or reads it.
- `Completion`, `RequestAcceptance`, `JsonAcceptance`, `Reviewable`, `Delivery` and `Sending` are about the other
  direction: which messages are taken, which of them can be reviewed, and so what a host can bring to a review.

Where the code and its own words differ, the model follows the code:

- A comment says that a raw `\x` cannot occur in a value that is shown (`kadena-core/src/display.rs:7-8`). It can, in
  the arguments of a capability that the review cannot verify, and of a rotation: exactly where a primitive among those
  arguments holds one, or a string of theirs has an escaped backslash before an `x`, at any depth
  (`Spelling.ItemSpells`). Both happen (`Doubles.RawEscapeShown`), and so two different accepted transactions can look
  the same (`Doubles.LookTheSame`); which texts look the same is `Display.LookAlike`. No other item shows a backslash
  (`Screen.BackslashOnlyInArguments`), so in clear reviews what differs looks different (`Screen.ClearTextsDiffer`).
- A 0x10 APDU with more than 230 data bytes can be accepted (`Completion.LongFirst`, `Completion.LongLater`), but what
  lies past byte 235 is not read: an accepted APDU adds exactly its data if and only if it has at most 230 bytes of
  them (`Completion.FirstAdds`, `Completion.LaterAdds`), and a run without longer ones holds all of its data
  (`Runs.WholeData`).
- Not every path and request that is sent by 0x10 in pieces of 230 bytes is taken. One whose last item follows the cut
  between two pieces is refused (`Completion.RefusedLast`), and one that ends at byte 235 of a full piece is never
  completed (`Completion.RefusedFull`). So is an item cut with 33 bytes or more before the cut, an item of 255 bytes
  that is cut, whose 8-bit length wraps, and one that goes on past the next piece. `Completion.MessageSends` says
  exactly which messages are taken, in terms of where their items start and end, and `Delivery.MessageReviewed` which
  of them are then reviewed.
- `build` accepts requests that the review refuses: gas limits and times with a fraction, amounts of coins that
  `IsAmount` rejects, an empty network, a fee beyond its caps. `RequestAcceptance.TransferAccepted` is exact,
  and `RequestAcceptance.ReadAndRefused` gives two such requests.
- The search for the signer's key stops at a capability without `args` (`Review.KeyAmong`), and the string `"null"` counts as
  null (`Review.IsNullText`); "Key not in transfer" and the missing-value cases are stated with that.

## Model

| member | source | states |
|---|---|---|
| Documents.Recognises | kadena-core/src/jsmn.rs:186-390 | on every text below 65535 bytes, the strict tokenizer accepts and only blanks follow its first token, if and only if the text is `ws object ws` of RFC 8259 (sections 2, 4, 5 and 7, primitives relaxed) with no more nodes than there are slots; the tokens are then the preorder nodes of the syntax tree with their spans, and a tree with more nodes is refused for want of slots |
| Recognition.HopValue | kadena-core/src/jsmn.rs:241-380 | from any state in which a value may come, the tokenizer reads the print of any valid value to its end, adding exactly the value's preorder tokens and leaving the state of a value that has been read |
| Recognition.SoundObject | kadena-core/src/jsmn.rs:246-315 | whenever a run that accepts stands at a brace, the text from there is the print of a valid object, and the run goes on behind it |
| Documents.Complete | kadena-core/src/jsmn.rs:229-390 | the print of every valid document is tokenized into the preorder nodes of its tree |
| Documents.Sound | kadena-core/src/jsmn.rs:229-390 | an accepted text is the print of a valid document |
| Documents.ClosedStays | kadena-core/src/jsmn.rs:283-306 | a token whose end has been set keeps its place and its span to the end of the run |
| Jsmn.Tokenize | kadena-core/src/jsmn.rs:209-390 | the in-place tokenizer, strict or not, over a caller's array gives the tokens, the count and the errors of the stack-free machine; unused slots stay cleared |
| Jsmn.Parser.TopLevelByte | kadena-core/src/jsmn.rs:241-380 | one pass of the loop is one step of the machine |
| Jsmn.Parser.ParseString | kadena-core/src/jsmn.rs:132-186 | a string ends where its first unescaped quote is, or is refused with the position put back |
| Jsmn.Parser.ParsePrimitive | kadena-core/src/jsmn.rs:97-124 | a primitive ends at the first delimiter, or is refused with the position put back |
| Jsmn.Parser.Open | kadena-core/src/jsmn.rs:246-267 | an opening bracket stores an open token and becomes the super token |
| Jsmn.Parser.Close | kadena-core/src/jsmn.rs:268-315 | a closing bracket ends the last open token if it is of its kind, and the backward scan finds the open token around it |
| Jsmn.Parser.Comma | kadena-core/src/jsmn.rs:337-366 | after a comma the grammar state is that of the innermost open container |
| Jsmn.Parser.AllocToken | kadena-core/src/jsmn.rs:81-90 | the next slot, with its span unset; nothing changes when there is none |
| Lookups.ArrayWalk | kadena-core/src/json.rs:36-93 | on an array node the element walk goes through exactly the tree's elements, in order |
| Lookups.ObjectWalk | kadena-core/src/json.rs:95-171 | on an object node the key walk goes through exactly the tree's members, in order, each key followed by its value |
| Lookups.MixedWalk | kadena-core/src/json.rs:36-93 | on an object node the element walk goes through keys and values alternately |
| Lookups.LeafWalk | kadena-core/src/json.rs:36-93 | on a string or a primitive the walks find nothing |
| Lookups.GetIsMember | kadena-core/src/json.rs:173-211 | on an object node the lookup by key succeeds if and only if the tree has that member, and returns the index of its value |
| Lookups.LookupFollows | kadena-core/src/json.rs:36-211 | a chain of lookups by key and by index ends at the node that the same chain of steps reaches in the tree |
| Lookups.NodeText | kadena-core/src/json.rs:25-35 | the span of a node's token is the text of the node |
| Json.JsonData.ArrayGetElementCount | kadena-core/src/json.rs:36-62 | counts the elements of the walk |
| Json.JsonData.ArrayGetNthElement | kadena-core/src/json.rs:64-93 | the n-th element of the walk, or no data |
| Json.JsonData.ObjectGetElementCount | kadena-core/src/json.rs:95-123 | counts the keys of the walk |
| Json.JsonData.ObjectGetNthKey | kadena-core/src/json.rs:125-160 | the n-th key of the walk, or no data |
| Json.JsonData.ObjectGetNthValue | kadena-core/src/json.rs:162-171 | the value beside the n-th key |
| Json.JsonData.ObjectGetValue | kadena-core/src/json.rs:173-211 | the value beside the first key of the walk with these bytes, or no data |
| Json.ObjectKeys.Next | kadena-core/src/json.rs:222-284 | the iterator gives the keys of the walk one by one |
| Json.CheckKeyIntegrity | kadena-core/src/json.rs:286-309 | goes through the objects in token order and refuses at the first key that holds a backslash or repeats an earlier key of its object; accepts if there is none |
| Integrity.NodeSound | kadena-core/src/json.rs:286-309 | over the tokens of a tree, no key is refused if and only if in every object of the tree the keys are distinct and free of backslashes |
| Integrity.ReadsTrees | kadena-core/src/parser.rs:92-124 | `read_json` accepts exactly the texts of the documents with at most 768 nodes and sound keys, and its tokens are the tree's |
| Integrity.ReadPrinted | kadena-core/src/parser.rs:92-124 | `read_json` of the print of any valid tree gives back its nodes, or refuses it for its size or its keys |
| Transfer.BuildInto | kadena-core/src/transfer.rs:164-217 | reads a request and writes its template, or gives the error of the first check that fails |
| Transfer.ParseRequest | kadena-core/src/transfer.rs:175-211 | the type and the twelve fields, or the first error: type, framing, trailing bytes, lengths, contents |
| Transfer.FormatInto | kadena-core/src/transfer.rs:219-306 | writes the pieces of the template in order; `Template.PrintsTemplate` and `Pact.PrintsCode` say what they print |
| Transfer.Out.App | kadena-core/src/transfer.rs:77-94 | appends a piece whole, or fails when the buffer is full |
| Transfer.Reader.Take | kadena-core/src/transfer.rs:53-75 | the next bytes, or the end of the input |
| Template.PrintsTemplate | kadena-core/src/transfer.rs:219-306 | the pieces in a row are the print of one syntax tree, whatever the fields hold |
| TemplateReading.GoodTree | kadena-core/src/transfer.rs:133-162 | for fields that pass the allowlist the tree is valid and its keys are sound: no content changes the structure |
| Pact.PrintsCode | kadena-core/src/transfer.rs:249-272 | the code in the template is the call that the request asks for, written out from its fields for each type: the module, the sender with the device's key, the recipient, the keyset unless the type is 0, the target chain for type 2, and the amount |
| TemplateReading.AllowedHarmless | kadena-core/src/transfer.rs:96-162 | every field that passes the allowlist is a plain string body or a plain primitive |
| TemplateLookups.BuildFits | kadena-core/src/transfer.rs:164-306 | `build` fails only with the errors of the request: every accepted template fits, in at most 1191 bytes |
| TemplateLookups.TemplateReads | kadena-core/src/transfer.rs:164-306 | the round trip: `read_json` accepts every template with at most 55 tokens, and the lookups return exactly the network, the call as Pact code, the recipient's keyset, device key, accounts, amount, target chain, capability name, each meta value and the nonce |
| TemplateLookups.CodeIsGranted | kadena-core/src/transfer.rs:249-289 | the code calls the module that the capability is of, with exactly the sender, recipient, amount and target chain that the capability's arguments are |
| TemplateLookups.TreeMeasure | kadena-core/src/transfer.rs:219-306 | at most 55 nodes and 1191 bytes |
| Framing.RequestEncodes | kadena-core/src/transfer.rs:173-217 | a body is read as a type and fields if and only if it is their encoding and they keep to the allowlist |
| Framing.BodyLength | src/platform.rs:26-36 | a body that `build` accepts is a type byte and twelve items, at most 3073 bytes long |
| Framing.FramedBody | kadena-core/src/transfer.rs:184-193 | on a type byte and twelve items the reader never fails on framing |
| Notations.DecimalGrammar | kadena-core/src/transfer.rs:100-118 | a field is decimal for the allowlist if and only if it is digits or digits, a point and digits |
| Notations.NumberGrammar | kadena-core/src/transfer.rs:120-131 | a gas price is allowed if and only if it is such a number or one with an exponent mark, an optional sign and digits |
| FeeSpec.MaxFeeExact | kadena-core/src/fee.rs:89-158 | a fee is returned if and only if both inputs are numbers within the caps and the canonical text fits; and the text then denotes exactly limit times price, as a real number |
| FeeSpec.EqualProducts | kadena-core/src/fee.rs:89-158 | inputs with equal products print the same text |
| FeeSpec.CanonicalUnique | kadena-core/src/fee.rs:122-158 | two canonical texts of the same number are the same text |
| FeeSpec.ReadsNumbers | kadena-core/src/fee.rs:17-88 | the texts that are read as numbers are exactly `digits (. digits)? (e [+-]? digits)?` |
| FeeSpec.ParsedValue | kadena-core/src/fee.rs:17-88 | a parsed number has the value its text denotes |
| FeeSpec.ShownDenotes | kadena-core/src/fee.rs:122-158 | the printed digits and point denote the product |
| Fee.MaxFeeInto | kadena-core/src/fee.rs:92-158 | the schoolbook product with its carries and the printer write exactly the specified text, or fail |
| Fee.ParseNumber | kadena-core/src/fee.rs:20-88 | the digit array, the fraction and the exponent, or a refusal, with the caps of 300 digits and an exponent of 400 |
| Fee.Multiply | kadena-core/src/fee.rs:101-121 | the accumulator rows and the carries hold the digits of the product |
| Buffering.Buffer.Append | kadena-core/src/buffering.rs:50-84 | appends all the bytes or none: the contents are an append-only sequence capped at 15104, wherever they are kept, and RAM is written only past what it holds |
| Buffering.Buffer.AppendFlash | kadena-core/src/buffering.rs:50-60 | appends to flash all or nothing |
| Buffering.Buffer.Get | kadena-core/src/buffering.rs:86-93 | the contents, from RAM or flash |
| Platform.Device.TxAppend | src/platform.rs:155-165 | the transaction grows as a bounded sequence; the template stays as long as RAM is not filled up to it |
| Platform.Device.TemplateStore | src/platform.rs:167-171 | stores the template over the end of RAM; a transaction that does not reach there keeps every byte |
| Platform.Device.GetTemplate | src/platform.rs:173-175 | the template last stored |
| Platform.Device.TxReset | src/platform.rs:155-157 | empties the transaction and leaves the template |
| Items.ItemArray.StoreTxItems | kadena-core/src/items.rs:586-628 | the slots filled are exactly the list of the specification, or its refusal: a slot index is never 100 or more, and no slot shows a token left there by an earlier lookup |
| Items.ItemArray.Push | kadena-core/src/items.rs:564-582 | one item more, refused at the hundredth |
| Items.ItemArray.ValidateSigners | kadena-core/src/items.rs:753-775 | "Unscoped signer" or "Key not in transfer" when the scope calls for it; `ReviewProof.PrefixNames` and `RequestTexts.KeyIsFound` say when |
| Items.ItemArray.StoreAllTransfers | kadena-core/src/items.rs:779-833 | the items of every capability in order |
| Items.ItemArray.StoreTransfer | kadena-core/src/items.rs:851-908 | the items of a transfer, over slots that inherit tokens |
| Items.ItemArray.StoreUnverified | kadena-core/src/items.rs:910-935 | the items of a capability that cannot be verified |
| Items.ItemArray.StoreRotate | kadena-core/src/items.rs:947-958 | the items of a rotation |
| Items.ItemArray.StoreChainId | kadena-core/src/items.rs:972-984 | "On Chain", from `meta` |
| Items.ItemArray.StoreFeeAndPayer | kadena-core/src/items.rs:630-649 | "Max fee" and "Paying account" |
| Items.ItemArray.StoreExpert | kadena-core/src/items.rs:652-704 | what expert mode adds |
| Items.ItemArray.CheckTxLengths | kadena-core/src/items.rs:997-1007 | a warning when an item cannot be shown |
| Items.ItemArray.CheckBlind | kadena-core/src/items.rs:732-743 | whether an item calls for blind signing |
| ItemLookups.ValidateMetaField | kadena-core/src/items.rs:258-294 | the bit set of the keywords seen accepts exactly the recognised key sets |
| ItemLookups.CapKindOf | kadena-core/src/items.rs:298-325 | the kind of a capability by its name |
| ItemLookups.GetValidClist | kadena-core/src/items.rs:327-345 | the capability list and its length, if there is one |
| ItemLookups.FindSigner | kadena-core/src/items.rs:353-425 | the one entry that names the device, and the number of entries, or why there is none |
| ItemLookups.FindPubkeyInClist | kadena-core/src/items.rs:504-535 | whether an argument names the key; the search stops at a capability without `args` |
| ReviewProof.PrefixNames | kadena-core/src/items.rs:525-531 | an argument matches the key if and only if it is `k:` and the key, or it is the key and does not start with `k:` |
| RequestTexts.KeyIsFound | kadena-core/src/items.rs:753-775 | no accepted request is reviewed with "Key not in transfer" or "Unscoped signer" |
| ItemLookups.CheckAmountOf | kadena-core/src/items.rs:429-477 | the token of a transfer's amount, if it is an amount |
| Notations.AmountGrammar | kadena-core/src/items.rs:465-477 | an amount is digits without a leading zero and, behind a point, one to twelve decimals: no sign, no exponent |
| Principal.PrincipalGrammar | kadena-core/src/principal.rs:13-88 | an account is a principal if and only if it is a letter, a colon and what the guard of that letter is written as: hashes of 43 characters and names of up to three dotted identifiers, in their places |
| MetaKeys.MetaNamesPrefix | kadena-core/src/items.rs:258-294 | keys are recognised if and only if they are distinct and, as a set, the first so many of the six names |
| MetaKeys.MetaOrder | kadena-core/src/items.rs:258-294 | whether keys are recognised does not depend on their order |
| MetaKeys.MetaLookups | kadena-core/src/items.rs:605-649 | after the checks on `meta` the chain, gas and fee lookups cannot fail: a recognised `meta` has all six members |
| ReviewProof.ReviewMirrors | kadena-core/src/items.rs:586-628 | over a document, the list of items is the list of lines of the syntax tree, and every token that a renderer reads is the node of its line |
| ClearSigning.ClearSigned | kadena-core/src/items.rs:732-743 | an accepted transaction is clear-signed if and only if `meta` is recognised and the entry has a non-empty clist of gas, transfers of three arguments and cross-chain transfers of four |
| ClearSigning.PaymentsShown | kadena-core/src/items.rs:779-908 | a clear-signed review says from, to, amount and target chain of every transfer, in the order of the clist, and of nothing else |
| ClearSigning.GrantsOfReview | kadena-core/src/items.rs:779-935 | only the lines of the capabilities say what is granted |
| Signers.DeviceFound | kadena-core/src/items.rs:353-418 | the entry found is the only one that names the device key, in `pubKey` or `addr`, in any letter case, and its `pubKey` is exactly that key; no capability of its list has an escaped name |
| Signers.DeviceIsFound | kadena-core/src/items.rs:353-418 | such an entry is found, if its capabilities are objects and none has an escaped name |
| ReviewTexts.NamesSpelled | kadena-core/src/items.rs:353-418 | an entry names the device if and only if its `pubKey` or `addr` spells the bytes of the key in hexadecimal, in any letter case |
| Notations.WritesHex | kadena-core/src/items.rs:231-237 | the device's key is written in hexadecimal with lower-case letters |
| Signers.CapabilityBound | kadena-core/src/items.rs:753-833 | an accepted clist has at most 252 capabilities: the cast of its length to eight bits loses nothing |
| Signers.AcceptedReview | kadena-core/src/items.rs:586-628 | an accepted review is of that entry, which has no capability with an escaped name, and its items are the lines of the tree |
| Acceptance.AcceptedText | kadena-core/src/parser.rs:92-187 | from the bytes: an accepted text is that of one object; its review is of the one entry that names the device, blind unless `meta` and the scope are recognised, and says exactly what the scope grants, in expert mode too |
| JsonAcceptance.TextAccepted | kadena-core/src/parser.rs:92-223 | a JSON text is reviewed if and only if key and hash can be had and it is the text of a document with sound keys, no verifiers and exactly one entry that names the device, in which the capabilities, `meta` and the network are in order, and whose lines are fewer than a hundred and can all be shown |
| JsonAcceptance.CapIsFit | kadena-core/src/items.rs:779-935 | a capability stops the review exactly if it is no object, or is not gas and has no `args`, or is a transfer of three arguments, four across chains, without strings and an amount in their places |
| TransferReview.TransferSays | kadena-core/src/items.rs:851-933 | for every accepted request of all three types the review is blind if and only if namespace and module are both given; and it says exactly `module.TRANSFER` or `module.TRANSFER_XCHAIN` and the namespace, or else who pays whom how much and where |
| RequestAcceptance.TransferAccepted | kadena-core/src/app.rs:489-550 | a structured transfer is reviewed if and only if `build` reads the request, key and hash can be had, creation time, ttl and gas limit are plain digits, the amount of coins has no leading zero and at most 12 decimals, the network is not empty, and the fee is within its caps and fits the screen buffer |
| RequestAcceptance.ReadAndRefused | kadena-core/src/app.rs:489-550 | two requests that `build` reads and the review refuses: a gas limit of 1.5, and an empty network |
| RequestAcceptance.TransferParsed | kadena-core/src/app.rs:489-550 | with blind signing off it is reviewed if and only if besides it names no token; the review is blind if and only if it does |
| RequestTexts.RequestScreens | kadena-core/src/items.rs:586-649 | the whole review of every accepted request, title by title and text by text, from its fields: who signs, who pays whom how much and where or the token's capability and arguments, the gas limit and then its price, a fee that is exactly their product, and in expert mode the validity window and the hash of the template in base64; nothing else |
| RequestTexts.HashScreens | kadena-core/src/items.rs:696-704 | the whole review of a bare hash: the warning and the hash in base64; in expert mode the key as well |
| Showable.ItemShows | kadena-core/src/items.rs:1054-1175 | an item can be shown if and only if its value in the tree is not empty and fits, and a fee is within its caps |
| Rendering.Render | kadena-core/src/items.rs:1054-1175 | the value written is the unbounded rendering, whole, in at most 299 bytes, or a refusal; `ItemTexts.ItemSays` says what it is |
| Rendering.RenderUnknown | kadena-core/src/items.rs:1187-1264 | the arguments, whole, or a refusal |
| Rendering.Writer.Put | kadena-core/src/items.rs:200-210 | a piece is written whole or marks the value as too long |
| RenderProof.UnknownFits | kadena-core/src/items.rs:960-970 | at most five arguments in at most 256 bytes are always shown, in at most 293 bytes |
| ItemTexts.ItemSays | kadena-core/src/items.rs:1054-1264 | what each renderer shows, from the tree: a value's text, the gas limit and then the gas price, `KDA` and a number that is exactly their product, the first argument between quotes, the arguments as they stand numbered from 1, the name of a capability with or without its namespace, the number of signers, and the fixed text of every other renderer |
| ItemTexts.SplitSays | kadena-core/src/items.rs:1177-1185 | a namespace is taken off a name if and only if the name has two dots; it is what stands before the first |
| ItemTexts.SaysOne | kadena-core/src/items.rs:1054-1264 | and a line says one thing only |
| ItemTexts.WarningsDiffer | kadena-core/src/items.rs:1054-1175 | the seven warnings are different texts |
| ItemTexts.DecimalSays | kadena-core/src/items.rs:212-235 | a number is shown by its plain decimal text |
| ReviewTexts.TextSays | kadena-core/src/parser.rs:92-223 | of every accepted JSON text, every item says what the line of the tree says that it stands for; the hash is that of the text, in base64; and the same holds of what expert mode adds |
| ReviewTexts.AddedMatch | kadena-core/src/items.rs:652-704 | what expert mode adds is `exec` or `cont` as the payload has it, with the pact and the step of that `cont`, the validity window of a recognised `meta`, the hash and the address, unless `payload` or `cont` is an array |
| Notations.ShowsHash | kadena-core/src/parser.rs:25-50 | the 43 characters of a hash are its bytes in base64 as RFC 4648 has it, URL-safe and without padding |
| RenderProof.ReadDocument | kadena-core/src/parser.rs:82-124 | the tokens of an accepted text span its bytes, and token 0 is its root |
| TxParser.Parsed.ReadJson | kadena-core/src/parser.rs:92-124 | tokenizes, checks what follows and the keys; the tokens stored are those of the text |
| TxParser.Parsed.StoreTx | kadena-core/src/parser.rs:126-187 | the items and the hash stored are those of the specification, or its refusal |
| TxParser.Parsed.StoreHash | kadena-core/src/parser.rs:126-187 | the items of a bare hash |
| TxParser.Parsed.RenderStored | kadena-core/src/parser.rs:196-211 | renders an item of the stored review over the text it was made from, and refuses an index past the last one |
| TxParser.Parsed.Validate | kadena-core/src/parser.rs:213-223 | accepts if and only if every item can be shown |
| App.Application.Handle | kadena-core/src/app.rs:308-353 | one APDU takes the step of the state machine; the fields, the buffers and the template in memory stay those of its state |
| App.Application.SignDone | kadena-core/src/app.rs:934-974 | the signature of what was reviewed, if it is approved; nothing stays pending; `Signatures.ApprovedReply` says which |
| App.Application.AddressDone | kadena-core/src/app.rs:889-904 | the address that was reviewed, if it is approved; nothing stays pending |
| App.Application.constructor | kadena-core/src/app.rs:287-306 | the initial state |
| App.Application.ReviewLen | kadena-core/src/app.rs:914-916 | the number of items of the pending review |
| App.Application.ReviewItem | kadena-core/src/app.rs:906-932 | while a review is pending, each of its items is rendered from memory as exactly the text that was validated, whatever the type and the INS; past the last one it is refused; the calls are a run, so that the text is that of `EndToEnd.RequestScreens`, `HashScreens` or `JsonScreens` |
| App.Application.SignChunkStep | kadena-core/src/app.rs:440-487 | first, middle and last chunks of the modern commands |
| App.Application.TxParseInto | kadena-core/src/app.rs:489-550 | builds, reads and reviews; the blind-signing decision; what is left in memory is what was reviewed |
| App.Application.ReviewTransfer | src/platform.rs:26-36 | storing the template over the end of RAM alters no byte of the transaction it was built from; the template stored is the one parsed |
| App.Application.Sign | kadena-core/src/app.rs:943-973 | signs from memory what was reviewed: the transaction, its message or the template; `Runs.SignatureSafety` and `Signatures.ApprovedReply` say which bytes |
| App.Application.LegacySignStep | kadena-core/src/app.rs:633-698 | the chunks of 0x03 and 0x04 |
| App.Application.CheckRequest | kadena-core/src/app.rs:653-698 | the payload and the path that ends the buffer |
| App.Application.LegacyTransferStep | kadena-core/src/app.rs:700-735 | the chunks of 0x10 |
| App.Application.ReadItems | kadena-core/src/app.rs:746-787 | the loop over the items of an APDU |
| App.Application.InitTransfer | kadena-core/src/app.rs:789-812 | the first APDU of 0x10 |
| App.Application.ExistingTransfer | kadena-core/src/app.rs:814-851 | a later APDU of 0x10: what was kept aside, and the rest of its item |
| App.Application.HandleOverflow | kadena-core/src/app.rs:853-875 | keeps aside an item that ends past byte 235 |
| App.Application.LegacyExtractHdPath | kadena-core/src/app.rs:552-584 | a path of two to five components, as `Paths.ReadsPath` reads it |
| App.Application.ExtractHdPath | kadena-core/src/app.rs:383-400 | a path of five components, as `Paths.ReadsPath` reads it; ends a modern stream |
| Paths.ReadsPath | kadena-core/src/app.rs:552-584 | bytes are read as a path if and only if they are its components one after the other, four bytes each, the least significant first; the components that are missing are zero |
| Paths.EncodesPath | kadena-core/src/app.rs:552-584 | and whatever is read is so encoded |
| Reassembly.FirstChunk | kadena-core/src/app.rs:737-812 | after a first APDU the buffer and the bytes kept aside are what it carried after the path, as a type byte and whole items |
| Reassembly.NextChunk | kadena-core/src/app.rs:737-875 | a later APDU adds exactly the bytes it carried before byte 235, in order |
| Reassembly.ItemsKeep | kadena-core/src/app.rs:746-787 | the items of an APDU are added to the buffer one by one, each once; the counter is their number |
| Runs.RunAgrees | kadena-core/src/app.rs:201-974 | on every run the open stream is that of the INS its chunks carry, all the same; it holds exactly what they have carried and is bound to the path of the first, whatever address commands came in between |
| Runs.SignatureSafety | kadena-core/src/app.rs:934-974 | on every run a signature is returned only for an approved review that the immediately preceding command returned, so at most once; it is `sign` of the 32 bytes carried for 0x23 and 0x04, and of the blake2b-256 of the text reviewed otherwise, with the 44'/626' path its own signing command carried; for 0x10 the key follows it |
| Signatures.ApprovedReply | kadena-core/src/app.rs:934-974 | the whole answer to an approved review on any run, from the chunks of its command alone: the signature, with the path that they carry, of the hash that they carry, or of the blake2b-256 of the message or of the template of the request; for 0x10 with the key behind it |
| Signatures.NothingSigned | kadena-core/src/app.rs:936-945 | without approval or without a pending review nothing is signed |
| Signatures.PathSigns | kadena-core/src/app.rs:440-448 | on every run the path that the first chunk of 0x22, 0x23, 0x24 or 0x10 carries, or the end of a 0x03 or 0x04 message, is the one that signs |
| Signatures.PathCarried | kadena-core/src/app.rs:653-698 | and for every pending review they carry one |
| Addresses.AddressAnswer | kadena-core/src/app.rs:406-417 | an address command is answered by the key of the path it carries, at once or after a review, with a blank in front in the legacy commands |
| Addresses.AskedPath | kadena-core/src/app.rs:586-604 | an address command that succeeds carries a path, and the PIN has been entered |
| Addresses.AddressAnswered | kadena-core/src/app.rs:889-904 | on every run an approved address review is answered by the key of the path that the command just before it carried; anything else is refused |
| Replies.VersionAnswer | kadena-core/src/app.rs:976-992 | the version reply: twelve bytes, the numbers big-endian |
| Replies.LegacyVersionAnswer | kadena-core/src/app.rs:371-380 | the legacy version reply: three bytes, each number cut to eight bits |
| Replies.Refusals | kadena-core/src/app.rs:308-353 | a wrong class, an unknown instruction or a missing PIN is refused before any handler |
| Runs.TransferReassembled | kadena-core/src/app.rs:737-873 | on every run of 0x10 nothing is lost, repeated or moved while it arrives, the counter stays below 100, and what is reviewed is what was received |
| Runs.TransferCompleted | kadena-core/src/app.rs:737-873 | on every run each completion of 0x10, whatever becomes of the request, leaves in the buffer exactly what the chunks of this one stream carried, bound to their path: a type byte and twelve items, on which `build` has no framing error |
| Runs.WholeData | kadena-core/src/app.rs:746-760 | on every run, while no chunk of the 0x10 stream has more than 230 data bytes, the path and what is held are together the data of all its chunks in order |
| Completion.FirstAdds | kadena-core/src/app.rs:789-812 | an accepted first APDU adds exactly its data after the path if and only if it has at most 230 data bytes |
| Completion.LaterAdds | kadena-core/src/app.rs:814-850 | an accepted later APDU adds exactly its data if and only if it has at most 230 bytes of it |
| Completion.LongFirst | kadena-core/src/app.rs:746-760 | a first APDU of 231 data bytes that is accepted |
| Completion.LongLater | kadena-core/src/app.rs:746-760 | a later APDU of any length above 230 is accepted where a length byte is awaited and it is 229 |
| Completion.ItemsComplete | kadena-core/src/app.rs:746-787 | the items of an APDU complete the transfer if and only if they are exactly the ones left and the APDU ends before byte 235 |
| Completion.LaterComplete | kadena-core/src/app.rs:737-875 | a later APDU completes the transfer if and only if it ends the item in hand, then holds exactly the items left, at least one, and ends before byte 235 |
| Completion.FirstComplete | kadena-core/src/app.rs:737-812 | a first APDU completes the transfer if and only if it is a path, a type byte and twelve items and ends before byte 235 |
| Completion.MessageSends | kadena-core/src/app.rs:737-875 | a message sent in pieces of 230 bytes is completed if and only if it is a path and a request, does not end with a full piece, and each item lies in one piece or is cut with at most 32 bytes before the cut, is not 255 bytes long, ends within the next piece and is not the last; the buffer is then the request and the path its own |
| Completion.LastItemAlone | kadena-core/src/app.rs:814-850 | an APDU before byte 235 that ends with the item in hand is refused, even when it is the twelfth |
| Completion.RefusedLast | kadena-core/src/app.rs:814-850 | a request of 231 bytes that is refused because its twelfth item follows the cut |
| Completion.RefusedFull | kadena-core/src/app.rs:746-787 | a request of 230 bytes that is never completed because it ends at byte 235 |
| Runs.PendingReviewed | kadena-core/src/app.rs:440-487 | on every run a pending review is of the concatenation of the chunks of one INS, ended by the last command, as the type that INS reviews; for 0x03 and 0x04 the buffer is the message of the announced length and one encoded path, which signs |
| Runs.NoBlindReview | kadena-core/src/app.rs:489-550 | with the setting off no run ends in a blind review |
| EndToEnd.TransferReviews | kadena-core/src/app.rs:489-550 | whenever a run ends in the review of a structured transfer, by 0x24 or 0x10, the bytes received are a request, the review is blind exactly if it names a token, and it says what the request asks for |
| EndToEnd.JsonReviews | kadena-core/src/app.rs:489-550 | whenever a run ends in the review of a JSON transaction, its message is the text of one object and the review is of the device's entry in it, blind unless `meta` and the scope are recognised |
| Delivery.MessageReviewed | kadena-core/src/app.rs:737-974 | a message sent by 0x10 in pieces of 230 bytes, going on at each 0x9000, brings up a review if and only if it fits the pieces and its request can be reviewed with its path; the review is blind if and only if it names a token |
| Reviewable.ParsesIfReviewable | kadena-core/src/app.rs:489-550 | a message can be reviewed, by type: a JSON text if and only if its tree fits and blind signing is on or its scope and `meta` are recognised; a hash if and only if it has 32 bytes and blind signing is on; a request as above |
| Sending.ModernReviewed | kadena-core/src/app.rs:440-487 | 0x22, 0x23 and 0x24, in any state: a path and then a message in pieces bring up a review if and only if the path has the prefix, the message fits the buffer and it can be reviewed with that path |
| Sending.LegacyReviewed | kadena-core/src/app.rs:633-698 | 0x03 and 0x04: a message with its length in front, or a hash, and then a path, in pieces of 230 bytes, bring up a review if and only if the path has the prefix, both fit the buffer and the message can be reviewed with that path |
| Sending.TransferReviewed | kadena-core/src/app.rs:700-875 | 0x10: a path of two to five components and a request bring up a review if and only if they fit the pieces and the request can be reviewed with that path |
| EndToEnd.RequestScreens | kadena-core/src/app.rs:906-932 | while the review of a structured transfer is pending, on any run, its screens are those of the request carried |
| EndToEnd.HashScreens | kadena-core/src/app.rs:906-932 | while that of a bare hash is pending, they are the warning and the hash carried |
| EndToEnd.JsonScreens | kadena-core/src/app.rs:906-932 | while that of a JSON transaction is pending, every item says what the tree of the message carried says |
| Display.Escape | kadena-core/src/display.rs:12-24 | the pieces handed over make up the screen text |
| Display.ReadsBack | kadena-core/src/display.rs:12-24 | the body of any string is read back from its screen text by its units, left to right |
| Display.Injective | kadena-core/src/display.rs:1-8 | different string bodies look different |
| Display.OnlyPrintable | kadena-core/src/display.rs:1-8 | only bytes 0x20 to 0x7E are shown |
| Display.RawEscape | kadena-core/src/display.rs:7-8 | in a string body a raw `\x` stands only behind a backslash, to which it belongs |
| Display.SpellsInBody | kadena-core/src/display.rs:7-8 | a string body holds a raw `\x` if and only if one of its units is an escaped backslash and an `x` follows it |
| Display.LookAlike | kadena-core/src/display.rs:12-24 | two texts of bytes have the same screen text if and only if they are the same once every `\xNN` in them that is the screen text of a byte is read as that byte |
| Display.LooksDifferent | kadena-core/src/display.rs:1-8 | different texts that hold no such `\xNN` look different |
| Display.HasDouble | kadena-core/src/display.rs:1-8 | a text that holds one looks the same as a different text |
| Spelling.TextSpells | kadena-core/src/display.rs:7-8 | the text of any value of an accepted document holds a raw `\x`, or a whole `\xNN`, if and only if, at some depth, a primitive of it does, or a string in which an escaped backslash stands before one |
| Spelling.ItemSpells | kadena-core/src/items.rs:1187-1264 | so an item that shows arguments holds one if and only if one of the arguments shown does, in that sense |
| Screen.TextOnScreen | kadena-core/src/items.rs:1054-1264 | of every accepted JSON text, in expert mode too: an item that shows arguments holds a raw `\x`, or a whole `\xNN`, exactly if those arguments of the tree do, any other item holds no backslash, and a review that shows arguments is blind |
| Screen.BackslashOnlyInArguments | kadena-core/src/items.rs:1054-1264 | whatever is accepted, JSON, hash or structured transfer, every item can be rendered, and a value holds a backslash only if it shows arguments and the review is blind |
| Screen.ClearTextsDiffer | kadena-core/src/display.rs:1-8 | any two values of clear-signed reviews that look the same on the screen are the same bytes |
| Doubles.RawEscapeShown | kadena-core/src/display.rs:7-8 | two accepted transactions whose item shows a raw `\x`: a primitive `a\x41`, and a string of an escaped backslash and an `x` |
| Doubles.LookTheSame | kadena-core/src/display.rs:1-8 | two different accepted transactions, one with a line feed in an array and one with a primitive `\x0A` there, whose reviews differ and look the same on every screen |
| EndToEnd.ClearScreens | kadena-core/src/app.rs:906-932 | on the screens of any runs that end in clear reviews no value has a backslash, and two values look the same only if they are the same bytes |

## Left out

- Key derivation, Ed25519 and blake2b-256 are parameters (`Crypto`): total functions that may fail.
- Settings, the lock state, the version and the device information are parameters of a command (`Env`).
- Screens, paging and the text of the titles; an item has its title as a value of `Title`.
- SDK glue, storage and the unsafe statics: `src/main.rs`, `src/storage.rs`, `src/settings.rs`, `src/ui.rs`.
- Flash writes are assignments to an array; wear and failures of flash are not modelled.
- A reply is its bytes and its status word; its fixed array of 160 bytes is not modelled.
- `path_to_str`, the text of a derivation path, which only a screen shows.
- Documents of 65535 bytes or more: token spans are 16-bit and 0xFFFF marks an unset one. The buffer holds at most 15104.
- The token cap is 768; the smaller cap of one device model is not.
- Out-parameters that a failing lookup has written before it fails: a lookup here returns its result.
- The lookups on arrays by key and on objects that are not strict documents: stated only as walks over the tokens, not over a tree.
- Two checks of the program that can never fail are not repeated: the index bound after a successful element lookup in
  `store_all_transfers`, and the second length check after the path in `legacy_sign`.
- The 32-bit accumulators of the fee product are natural numbers; at most 300 products of two digits and a carry meet in one.
- Whether a primitive is a well-formed number or literal, and whether a string is UTF-8: the code does not check them either.
- JsonAcceptance.TextAccepted: what expert mode adds is a condition on the tokens there (`ExpertFits`), because `payload`
  and `cont` may be arrays, on which a lookup by key is no lookup in a tree.
- Display.Escape: collects the pieces it hands to its callback in a list, in their order, in place of calling it.
- ReviewTexts.AddedMatch: leaves out a `payload` or a `cont` that is an array, for the same reason.
- The text that goes with the error of a refused message is a plain table; no theorem is about it.
