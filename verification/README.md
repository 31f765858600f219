# Verified models of self-contained algorithms in llama.cpp

The Dafny files here model algorithms of this repository that can be stated without a GPU, model weights or a
network, and prove what their documentation and tests rely on. `dafny verify dfyconfig.toml` checks everything.

**Low-rank tensors** (`Tensors`, `LoraTensor`, `LoraProofs`, `LoraPermute`, `LoraIndex`, `LoraSplit`, `LoraKeys`,
`LoraApart`, `LoraEllipsis`, `LoraJoin`, `LoraCat`, `LoraAxes`, `LoraChain`, `LoraAccepts`, `LoraHeads`).
`LoraTorchTensor` keeps a tensor as two factors A and B. `Dense(l)` is the product B·A over the reals, with A broadcast
over the batch axes. A pair is *coherent* when that product exists with the reported shape. For each operation the model
has the rewriting of the factors and, separately, the operation on dense tensors; the theorems say that the two agree,
or exactly when they do, and which of the calls that the product accepts the factors accept. `LoraHeads.HeadsReorder` is
the chain that the converters apply to attention weights.

**Streaming chat messages** (`JsonText`, `QuoteNormalizer`, `PythonValues`, `ToolCallMapper`, `ToolCallProofs`,
`Gemma4`, `ChatDiff`, `ChatStream`, `ChatTrees`). Parser events become tool calls whose arguments are JSON text;
successive messages become deltas for the client. What was sent must stay a prefix of what follows. The mapper looks at
the *visible* events only: rules, enclosing nodes and the texts of markers do not matter (`ToolCallProofs.VisibleRun`).
`ChatTrees.TreesDeliver` and `ChatStream.PipelineDelivers` join the pieces: for any sequence of partial parses that
continue each other, in which the last visible event is cut in one of the allowed ways, no delta is refused and the
deltas add up to the final message.

**Text algorithms** (`MessageSpans`, `Segments`, `MarkerDiff`, `DiffPlaces`, `GlobMatch`, `GlobClasses`,
`LongestCommonSubstring`, `ProcessEscapes`, `PartialStop`, `PermuteGrammar`), each tied to a declarative meaning: a
language, a longest element, an inverse, a tiling.

**Codecs** (`Base64`, `CsvRow`, `GgmlFile`, `GgmlProofs`): base64 of RFC 4648, in and out of place; one CSV row of
RFC 4180; the reader of the three legacy model formats.

Code that updates state is a class or a method proved against a function on values, and the theorems are about that
function. A method whose loop body is long is cut into one method per round.

## What turned out not to hold

The code is modelled as it is. These claims fail on the inputs named, and the exact conditions are proved.

- Factors of rank 0 accept a reshape that their product cannot have (`LoraChain.RankZeroReshape`), and factors of
  any rank may accept two sizes left open, which the tensor library refuses (`LoraChain.TwoHoles`; condition in
  `LoraProofs.ReshapeCommutes`).
- `permute` subtracts the number of axes from any non-negative axis number, so it accepts numbers past the last axis,
  which a dense tensor refuses (`LoraChain.AxisPastTheEnd`; condition in `LoraPermute.PermuteCommutes`).
- `split` adds the number of axes to a negative axis number once and the tensor library does so again, so a number
  before the first axis returns chunks of something else (`LoraChain.SplitPastTheFront`; condition in
  `LoraSplit.SplitCommutes`).
- A slice as key, or a leading slice in a tuple key that takes only part of an axis, can separate A from B; this answers
  the TODO at convert_lora_to_gguf.py:98 (`LoraChain.StretchedSlice`, `LoraChain.PartialLead`; conditions in
  `LoraKeys.SliceKeyCommutes` and `LoraKeys.KeyCommutes`).
- An integer key other than 0 and -1 is refused when A is stretched along the first axis, also where the product has the
  entry (`LoraAccepts.StretchedKey`; condition in `LoraAccepts.IntKeyAccepts`).
- An ellipsis that is not last becomes as many whole axes as the key has other entries, whatever the rank
  (`LoraChain.InnerEllipsis`; condition in `LoraEllipsis.EllipsisCommutes`).
- Concatenating batched factors whose A is stretched along the first axis gives factors without a product
  (`LoraChain.StretchedCat`; condition in `LoraAxes.CatCommutes`) or, if an operand is empty, a wrong one
  (`LoraChain.EmptyCat`; condition in `LoraAxes.CatExactly`).
- `cat` and `stack` read the axis from a keyword only, and ignore one given by position (`LoraChain.PositionalCat`,
  `LoraChain.PositionalStack`; conditions in `LoraAxes.CatExactly` and `LoraAxes.StackExactly`).
- A string argument whose value comes in several events, of which one after the first is empty, gets a quote too many
  (condition in `ToolCallProofs.StoredExactly`).
- In an argument value, an escaped quote or a word like True that is cut short is shown before it is complete
  (condition in `ChatStream.CutExactly`).
- Rewriting quotes is not monotone at a cut between a backslash and a single quote in a single-quoted string, nor
  inside a word that so far looks like True, False or None (`QuoteNormalizer.PrefixMonotone`).
- After `[!` a bracket closes the class, which then has every character, although `glob_class_match` would read it as a
  bracket (`GlobClasses.NegatedBracket`; the readable classes are those of `GlobClasses.Legal`).
- `calculate_diff_split` matches a segment twice when it repeats (`MarkerDiff.RepeatedMarker`; condition in
  `MarkerDiff.DiffLossless`).
- `split` ignores all skip regions from the first overlapping one on (`MessageSpans.OverlapIgnored`; condition in
  `MessageSpans.SkipsRespected`).
- `permute` offers only the given order for more than six members (`PermuteGrammar.LimitedOrders`; condition in
  `PermuteGrammar.AllOrders`).
- A model file whose last tensor's data, or the padding before it, is cut off loads without an error
  (`GgmlProofs.CutFile`; condition in `GgmlProofs.CutLoads`).

## Model

| member | source | states |
|---|---|---|
| LoraTensor.Make | convert_lora_to_gguf.py:45-53 | construction succeeds exactly when both factors have equally many axes, at least two, and one common rank |
| LoraProofs.ReshapeCommutes | convert_lora_to_gguf.py:136-166 | a reshape or view that returns is accepted for the product, with that result, if and only if it leaves one size open at most and the rank is positive or the numbers of elements agree |
| LoraProofs.ReshapeSucceeds | convert_lora_to_gguf.py:136-160 | with all of A's batch axes 1, every shape of two or more axes that fits the product and keeps its last axis, if that is not empty, is accepted |
| LoraAccepts.ReshapeAccepts | convert_lora_to_gguf.py:136-160 | with elements and a positive rank, a shape with one open size at most is accepted if and only if it has two axes or more, the product accepts it, it keeps the last axis and A has no real batch axes |
| LoraPermute.PermuteCommutes | convert_lora_to_gguf.py:168-179 | a permutation of the factors is the permutation of the product if and only if no axis number is past the last axis |
| LoraPermute.PermuteByAxes | convert_lora_to_gguf.py:168-179 | whatever the axis numbers, the result is the product permuted by the numbers counted from the end |
| LoraPermute.PermuteAccepts | convert_lora_to_gguf.py:168-179 | of the axis numbers in range, a permutation is accepted if and only if the product accepts it and there are two axes, or the last axis stays last and A has no real batch axes; else an assertion fails if it stays last, and it is not implemented if it does not |
| LoraPermute.TransposeProduct | convert_lora_to_gguf.py:175-176 | the transposed product is the product of the transposed factors in the other order |
| LoraPermute.TransposeCommutes | convert_lora_to_gguf.py:181-188 | exchanging two axes of the factors exchanges them in the product, negative numbers included |
| LoraPermute.TransposeAccepts | convert_lora_to_gguf.py:181-188 | an exchange is accepted if and only if both numbers name an axis and there are two axes, or A has no real batch axes and the last axis is not exchanged for another |
| LoraHeads.HeadsReorder | conversion/xverse.py:83-91 | view, swapaxes, view is accepted for the factors of every matrix with that many rows, keeps its shape, and row (head, position, half) of the result is row (head, half, position) of the product |
| LoraIndex.TakeCommutes | convert_lora_to_gguf.py:99-112 | picking rows from B, columns from A and matching batch entries from both is picking from the product |
| LoraKeys.IntKeyCommutes | convert_lora_to_gguf.py:67-71 | an integer key that returns gives factors of that entry of the product |
| LoraAccepts.IntKeyAccepts | convert_lora_to_gguf.py:67-71 | an integer key is accepted if and only if there are more than two axes, the product accepts it and A has an entry of that number |
| LoraAccepts.StretchedKey | convert_lora_to_gguf.py:67-69 | entry 1 of two that share A's only entry is refused by the factors and exists in the product |
| LoraKeys.SliceKeyCommutes | convert_lora_to_gguf.py:72-76 | a slice key means that slice of the product if and only if the tensor is a matrix, or A is not stretched along the axis, or the slice keeps A's one entry, or the slice is empty |
| LoraAccepts.SliceKeyAccepts | convert_lora_to_gguf.py:72-76 | a slice key is accepted exactly where the product accepts it |
| LoraKeys.TupleCommutes | convert_lora_to_gguf.py:95-112 | a tuple key for all axes means that key on the product if and only if the last two entries are slices and each leading slice takes all of A's axis or A is stretched there |
| LoraKeys.KeyCommutes | convert_lora_to_gguf.py:77-112 | the same for tuple keys that leave trailing axes out |
| LoraAccepts.TupleAccepts | convert_lora_to_gguf.py:95-112 | a complete key whose last two entries are slices is accepted exactly where the product accepts it |
| LoraKeys.VectorKey | convert_lora_to_gguf.py:99-112 | the last two entries of a key that returns are both slices or both integers, and two integers give a tensor with one axis more than the key asks for |
| LoraKeys.TrailingEllipsis | convert_lora_to_gguf.py:79-80 | dropping a trailing ellipsis is what the ellipsis means |
| LoraEllipsis.EllipsisRight | convert_lora_to_gguf.py:77-112 | under the guard, a key with an inner ellipsis gives factors of what the key means on the product, the ellipsis filling up the rank |
| LoraEllipsis.EllipsisCommutes | convert_lora_to_gguf.py:77-112 | the guard holds if and only if that is so for all factors of the same shapes: the key as expanded is safe, gives the shape of the key that is meant, and unless the rank is 0 reads the same entries |
| LoraEllipsis.KeysWithMeaning | convert_lora_to_gguf.py:77-93 | of the keys with ellipses exactly those with one, and no more other entries than axes, mean something, so that with the rows above every key is treated that does |
| LoraEllipsis.WholeReads | convert_lora_to_gguf.py:81-96 | the two keys read the same entries when every entry after the ellipsis takes its axis whole, where it is put and where it belongs |
| LoraEllipsis.EqualTakes | convert_lora_to_gguf.py:99-112 | two keys that give equal tensors for all factors of the shapes read the same entries |
| LoraSplit.ChunkCommutes | convert_lora_to_gguf.py:190-206 | the factors of one chunk stand for that range of the product, on any axis |
| LoraSplit.SplitCommutes | convert_lora_to_gguf.py:190-206 | for axis numbers not below minus the number of axes, split accepts exactly the calls that the product accepts; a call that returns gives chunk i of the product as chunk i if and only if the number is in that range |
| LoraSplit.SplitRejoins | convert_lora_to_gguf.py:190-206 | concatenating the chunks of a tensor gives the tensor back |
| LoraJoin.ScaleCommutes | convert_lora_to_gguf.py:211-219 | scaling B by a number, or by a tensor whose last axis is 1, scales the product |
| LoraAccepts.ScaleAccepts | convert_lora_to_gguf.py:211-219 | a scaling is accepted if and only if the product can be scaled, the factor's last axis is 1 and it has no more axes than the product |
| LoraAxes.StackExactly | convert_lora_to_gguf.py:234-242 | a stack that returns means, for all factors of the shapes, that of the products by the same call if and only if the call names the first axis, or the axes before the named one are as long as the list and there is one operand, no rank or no element |
| LoraAccepts.StackAccepts | convert_lora_to_gguf.py:234-242 | a stack is accepted if and only if no keyword names another axis, the products stack and the A's have one shape |
| LoraCat.CatMatrices | convert_lora_to_gguf.py:253-257 | matrices with one A in common concatenate by concatenating B |
| LoraCat.CatBatched | convert_lora_to_gguf.py:248-252 | batched operands concatenate on both sides when A and B are equally long along the axis |
| LoraAxes.CatCommutes | convert_lora_to_gguf.py:243-259 | without empty operands, a concatenation that returns means that of the products by the same call if and only if there is one operand and the axis exists, or the call names the first axis and the operands are matrices, or batched with A as long as B along it |
| LoraAxes.CatExactly | convert_lora_to_gguf.py:243-259 | empty operands included: it means that for all operands of the shapes if and only if there is one operand and the axis exists, or the joined factors have a product and, on the first axis, the operands are matrices, batched with A as long as B, batched with one entry of A in all, or without rank or elements, or, on another axis, nothing is there to join |
| LoraCat.CatCoherent | convert_lora_to_gguf.py:248-252 | for batched operands, empty ones included, the joined factors have a product if and only if the joined A has one entry along the axis or as many as the joined B |
| LoraAccepts.CatAccepts | convert_lora_to_gguf.py:243-259 | a concatenation is accepted if and only if no keyword names another axis, the products join along the first one and the A's are one matrix, or join too if there are more axes |
| LoraChain.StepCommutes | convert_lora_to_gguf.py:136-219 | a view, permute, swapaxes, scaling or split that returns is accepted by the product if and only if its guard holds, and then keeps the rank and stands for the dense operation |
| LoraChain.ChainCommutes | convert_lora_to_gguf.py:136-219 | a chain of these that runs on the factors, of any rank, runs on the product if and only if every step is guarded, and then ends in factors of its result |
| LoraChain.RangeGuards | convert_lora_to_gguf.py:136-219 | for a positive rank every step is guarded if and only if all axis numbers are in range and views leave one size open at most, which the call and the number of axes show |
| LoraChain.RankZeroReshape | convert_lora_to_gguf.py:152-160 | a product without elements of rank 0 is reshaped to a shape it does not have |
| LoraChain.TwoHoles | convert_lora_to_gguf.py:145-150 | two open sizes are accepted by factors of rank 1 and refused by the product |
| LoraChain.AxisPastTheEnd | convert_lora_to_gguf.py:170 | axis 3 of three axes is accepted by the factors and refused by the product |
| LoraChain.SplitPastTheFront | convert_lora_to_gguf.py:193-206 | axis -3 of a matrix returns one chunk where the product refuses |
| LoraChain.StretchedSlice | convert_lora_to_gguf.py:72-74 | a slice takes a stretched A's only entry away |
| LoraChain.PartialLead | convert_lora_to_gguf.py:99-112 | a partial leading slice is applied to B and not to A, and the factors returned have no product |
| LoraChain.InnerEllipsis | convert_lora_to_gguf.py:82-112 | on three axes an ellipsis before one slice returns factors for two entries of the last axis where the key means one |
| LoraChain.StretchedCat | convert_lora_to_gguf.py:248-252 | two stretched operands concatenate to factors without a product |
| LoraChain.EmptyCat | convert_lora_to_gguf.py:248-252 | an empty operand before another gives factors that have a product, but not that of the joined operands |
| LoraChain.PositionalCat | convert_lora_to_gguf.py:243-257 | an axis given by position is ignored by cat: the result has another shape |
| LoraChain.PositionalStack | convert_lora_to_gguf.py:234-242 | an axis given by position is ignored by stack |
| JsonText.DecodeEscape | common/chat-peg-parser.cpp:70-77 | every escaped string reads back as its text (section 7 of RFC 8259) |
| JsonText.EscapeMonotone | common/chat-peg-parser.cpp:70-77 | escaping a longer text only adds at the end |
| JsonText.UnescapedExactly | common/chat-peg-parser.cpp:70-77 | a text is left as it is if and only if it has no quote, backslash or control character |
| JsonText.JsonBraceDepth | common/chat-peg-parser.cpp:42-68 | the loop computes the scanner's depth |
| JsonText.PlainDepth | common/chat-peg-parser.cpp:42-68 | without quotes the depth is the number of opening braces less that of closing ones, and no other character counts |
| JsonText.ScanQuoted | common/chat-peg-parser.cpp:42-68 | the scanner crosses any dumped string and is back at the same depth, outside a string |
| JsonText.PrintBalanced | common/chat-peg-parser.cpp:42-68 | every printed JSON value is seen as closed |
| QuoteNormalizer.NormalizeQuotes | common/chat-peg-parser.cpp:84-186 | the loop with its two flags computes the rewriting function |
| PythonValues.PrintedValue | common/chat-peg-parser.cpp:79-186 | for every value of True, False, None, numbers, strings, lists and dicts, what Python prints for it, rewritten, is the JSON text of the value with the same blanks, and the compact JSON text if there are none |
| PythonValues.ValueTurns | common/chat-peg-parser.cpp:84-186 | the same for a value anywhere outside quotes, whatever comes before and after it |
| PythonValues.OtherWords | common/chat-peg-parser.cpp:157-180 | an unquoted word of letters, digits and underscores that begins one of the three literals becomes the beginning of the JSON word, and any other is kept |
| QuoteNormalizer.PrefixMonotone | common/chat-peg-parser.cpp:84-186 | the output for a cut input is a prefix of the full output if and only if the cut is not a bad one |
| QuoteNormalizer.SafeCut | common/chat-peg-parser.cpp:157-180 | if unquoted words with T, F or N begin a literal, any cut not after a backslash gives a prefix |
| QuoteNormalizer.StringKeepsText | common/chat-peg-parser.cpp:95-156 | a single-quoted Python string becomes a JSON string that reads as the same text |
| QuoteNormalizer.ReprRoundTrip | common/chat-peg-parser.cpp:79-83 | what Python prints for a text, rewritten and read as JSON, is the text |
| ToolCallMapper.Mapper.Map | common/chat-peg-parser.cpp:315-456 | one event changes all the fields as the specification step does, and the current call stays valid |
| ToolCallMapper.Mapper.FromAst | common/chat-peg-parser.cpp:284-313 | all events of a parse and the final clean-up |
| ToolCallMapper.CloseBraces | common/chat-peg-parser.cpp:444-447 | exactly as many closing braces are added as are open |
| ToolCallProofs.CleanIds | common/chat-peg-parser.cpp:350-356 | an id in quotes is stored without them and without the blanks that follow, any other without the blanks |
| ToolCallProofs.TrimKeys | common/chat-peg-parser.cpp:388-401 | a key is written without one blank before it and all blanks after it |
| ToolCallProofs.BodyRun | common/chat-peg-parser.cpp:276-278 | buffer, pending call and stored call together hold one text, whenever the name comes |
| ToolCallProofs.VisibleRun | common/chat-peg-parser.cpp:315-456 | rules, enclosing nodes, arguments that are no JSON object and the texts of the markers change nothing: a run can be done and ends in the same state with the visible events only |
| ToolCallProofs.ArgsRun | common/chat-peg-parser.cpp:384-431 | the argument events of a call leave an opened object with what is written for its members, comma-joined, for strings in any chunks, the last one perhaps not closed |
| ToolCallProofs.OneOpenBrace | common/chat-peg-parser.cpp:444-447 | whatever the keys and values contain, one brace is found open |
| ToolCallProofs.TaggedCall | common/chat-peg-parser.cpp:342-455 | events whose visible ones are those of tagged arguments, whatever the markers say and whatever encloses them, add one call with the stored arguments, with the name at any point and a last string closed by the call's end only, and nothing without a name; the stored arguments are the JSON object of the members if and only if no string has an empty chunk after its first |
| ToolCallProofs.StoredExactly | common/chat-peg-parser.cpp:403-447 | the stored text is the object of the members if and only if no string has an empty chunk after its first |
| ToolCallProofs.ObjectIsJson | common/chat-peg-parser.cpp:388-431 | the object of the members is the printed JSON object of the keys and of the values that the members' texts print |
| ToolCallProofs.JsonCall | common/chat-peg-parser.cpp:375-382 | a balanced object given whole, whatever its rules add, is stored unchanged but for trailing blanks |
| ToolCallProofs.MessageRun | common/chat-peg-parser.cpp:315-456 | a message of any number of calls with reasoning and content before, between, inside and after them stores exactly the named calls, with these arguments, and all the text |
| ToolCallProofs.TidyRun | common/chat-peg-parser.cpp:358-373 | after any events a pending call is unnamed and empty, and the pointer is at the last stored call |
| ToolCallProofs.FlushNeverFires | common/chat-peg-parser.cpp:287-298 | the flush after the last event has nothing to do in any run |
| Gemma4.RenderCut | common/chat-peg-parser.cpp:962-1055 | a tree cut along its last-child spine renders to a prefix of what the whole tree renders to |
| Gemma4.DeltaOfCut | common/chat-peg-parser.cpp:962-1055 | the argument delta between two such trees is accepted and completes the text |
| Gemma4.RenderWhole | common/chat-peg-parser.cpp:962-1055 | a complete tree renders to exactly the JSON text of its value |
| Gemma4.RenderOpen | common/chat-peg-parser.cpp:962-1055 | what a tree renders to that is cut off in a string, number, array or object, and the closing marks its marked nodes owe, are the JSON text of the value so far |
| Gemma4.UnmarkedExactly | common/chat-peg-parser.cpp:988-1045 | the mark that the cut asks for is needed: an array or object with a first part of the children and no mark renders to a prefix if and only if it has all of them and the whole one is not marked |
| Gemma4.UnmarkedString | common/chat-peg-parser.cpp:977-986 | the same for a string and its text |
| ChatDiff.StringDiff | common/chat.cpp:57-70 | fails exactly when neither text is a prefix of the other; appended to the old text it gives a longer new one |
| ChatDiff.ComputeDiffs | common/chat.cpp:267-333 | the method computes the specified deltas or error |
| ChatDiff.DeliversExactly | common/chat.cpp:267-333 | a step is accepted and applying its deltas gives the new message if and only if texts and the last call grew, earlier calls are unchanged and a replaced id is not emptied |
| ChatDiff.RefusedExactly | common/chat.cpp:267-333 | a step is refused if and only if neither reasoning, or neither content, or neither of the last known call's arguments starts the other, its name is replaced by one it does not start, or calls are missing |
| ChatDiff.SilentExactly | common/chat.cpp:267-333 | for a growing message nothing is sent if and only if nothing is new |
| ChatDiff.NamesOnce | common/chat.cpp:300-324 | a delta for a known call is for the last one, and repeats name and id only if one of them changed |
| ChatDiff.InOrder | common/chat.cpp:267-333 | for a growing message each delta is about the reasoning, the content or one call only, and they come in this order, calls by index, one for each |
| ChatDiff.StreamDelivers | common/chat.cpp:267-333 | over any stream of such steps nothing is refused and all deltas folded give the final message |
| ChatDiff.ChatMessage.SetToolCallIds | common/chat.h:107-119 | the call at each position gets the id cached for it, or else its own id, or else if that is empty the one generated, and the cache keeps its entries and takes these |
| ChatDiff.FirstIdStays | common/chat.h:107-119 | over a stream a position has in all messages the id that its call had in the first message with that position, or the one generated then if that was empty |
| ChatDiff.StampedStream | common/chat.h:107-119 | with the cache, a stream that grows in its texts is deliverable whatever its ids do |
| ChatDiff.IdsNeverChange | common/chat.h:107-119 | the id of a position is the same in all messages that have the position |
| ChatStream.RunGrows | common/chat-peg-parser.cpp:315-456 | what a run of events in order has put into the message stays as a prefix |
| ChatStream.CutGrows | common/chat-peg-parser.cpp:315-456 | so does what a run that stops anywhere, or whose last event's text is cut, has put there |
| ChatStream.CutMessage | common/chat-peg-parser.cpp:284-456 | of two parses whose visible events differ by such a cut, the longer one's message extends the other's |
| ChatStream.CutExactly | common/chat-peg-parser.cpp:388-424 | for arguments in the message already, an event cut short may be followed by the whole one if and only if the cut is of the allowed kinds; a name would have to be whole, which is why names are atomic (common/chat-peg-parser.h:102) and a partial atomic node is dropped (common/peg-parser.cpp:774-781) |
| ChatStream.CallOrderly | common/chat-peg-parser.cpp:342-455 | the visible events of a call, tagged or with an object that continues what is written, are in order from any state |
| ChatStream.MessageOrderly | common/chat-peg-parser.cpp:315-456 | so are those of any message of tagged calls with reasoning and content around and inside them |
| ChatStream.PipelineDelivers | common/chat.cpp:267-333 | for partial parses whose visible events continue each other, all deltas are accepted and add up to the stamped final message |
| ChatTrees.PartsShortened | common/peg-parser.cpp:169-184 | if the nodes open at the end of the shorter text have grown and the others are unchanged, the visible events in the order of the visit differ in the last one's text and what follows it only |
| ChatTrees.ShortenedCut | common/chat-peg-parser.cpp:315-456 | such events are a cut that the stream allows if and only if they are a beginning or the last one is cut in an allowed way |
| ChatTrees.TreesDeliver | common/peg-parser.cpp:714-781 | for successive parse trees that grow in this way, all deltas are accepted and add up to the stamped message of the last one |
| MessageSpans.Split | common/chat.cpp:153-185 | a new object holds the spans of the prompt |
| MessageSpans.RoleAt | common/chat.cpp:163-171 | the role of the first delimiter in the list that fits and matches, or none if none matches |
| MessageSpans.SpansTile | common/chat.cpp:175-184 | spans are not empty and follow each other without gap or overlap up to the last token, for any skips |
| MessageSpans.SpanStarts | common/chat.cpp:156-173 | for any skips, a span with a role starts exactly at the positions outside the obeyed skips whose first matching delimiter has the role |
| MessageSpans.DisjointStarts | common/chat.cpp:156-173 | with disjoint skips that is every position outside all of them |
| MessageSpans.SkipsRespected | common/chat.cpp:156-162 | no span starts in a skip, for all delimiters, if and only if the obeyed skips cover what the skips cover |
| MessageSpans.OverlapIgnored | common/chat.cpp:156-162 | three skips of which the overlapping one and the one after it are ignored |
| MessageSpans.ChatSpans.Add | common/chat.h:169-171 | appends one span |
| MessageSpans.ChatSpans.IsUserStart | common/chat.h:173-180 | true exactly when a user span starts there, positions taken as 32-bit integers |
| MessageSpans.ChatSpans.LastUserMessagePos | common/chat.h:182-189 | the loop finds the last user span's position or -1 |
| MessageSpans.LastUserStart | common/chat.h:182-189 | for split prompts that 32 bits can index this is the greatest start of a user span, and -1 exactly when there is none |
| Segments.SegmentizeMarkers | common/chat-auto-parser-helpers.cpp:266-296 | the loop computes the segments |
| Segments.SegmentsCharacterised | common/chat-auto-parser-helpers.cpp:266-296 | the segments are the one and only way to cut the text into closed markers, the longest plain texts and an unclosed rest |
| MarkerDiff.CommonPrefixLen | common/chat-auto-parser-helpers.cpp:66-73 | the longest shared prefix |
| MarkerDiff.CommonSuffixLen | common/chat-auto-parser-helpers.cpp:75-82 | the longest shared suffix |
| MarkerDiff.CalculateDiffSplit | common/chat-auto-parser-helpers.cpp:84-204 | the method with its four positions and two flags computes the specified difference |
| MarkerDiff.NarrowKeeps | common/chat-auto-parser-helpers.cpp:111-136 | every round of the loop keeps both texts in prefix, range and suffix |
| MarkerDiff.DiffLossless | common/chat-auto-parser-helpers.cpp:84-204 | prefix, left, suffix is the first input and prefix, right, suffix the second if and only if no used segment is matched again to the result's harm |
| MarkerDiff.DistinctIsLossless | common/chat-auto-parser-helpers.cpp:84-204 | that holds whenever no segment repeats within either input |
| DiffPlaces.PlainDiff | common/chat-auto-parser-helpers.cpp:166-201 | of two texts without markers, the first is all prefix if it starts the second; else the suffix is their longest shared one and the prefix the longest shared one of what remains |
| DiffPlaces.MiddleDiff | common/chat-auto-parser-helpers.cpp:84-201 | if the runs of segments shared at both ends leave a segment of each input, the runs go to prefix and suffix and the remainders are cut like plain texts where they begin or end with text; only if the first input starts the second and nothing of it would remain, it is all prefix |
| DiffPlaces.OverlapRight | common/chat-auto-parser-helpers.cpp:111-163 | if the runs use up the second, shorter input and nothing is lost, half of its segments go to the prefix, unless fewer fit there or more do not fit at the end, and the rest of the first input is the difference |
| DiffPlaces.OverlapLeft | common/chat-auto-parser-helpers.cpp:111-201 | the same for the first input, which is all prefix if it starts the second |
| DiffPlaces.SameInputs | common/chat-auto-parser-helpers.cpp:182-187 | equal inputs are all prefix |
| MarkerDiff.RepeatedMarker | common/chat-auto-parser-helpers.cpp:138-162 | for two inputs of markers the second copy of a marker is lost |
| MarkerDiff.DiffTight | common/chat-auto-parser-helpers.cpp:111-180 | if both sides differ, what remains begins and ends with different segments and shares no text at its ends |
| GlobMatch.Match | common/common.cpp:769-817 | accepts a text exactly when it can be cut into one piece for each token of the pattern that fits the token |
| GlobMatch.MatchFrom | common/common.cpp:769-813 | the same from any position of pattern and text |
| GlobMatch.GlobClassMatch | common/common.cpp:728-766 | a character is in a class exactly when one of its ranges has it, or none if the class is negated, for signed and for unsigned plain characters |
| GlobClasses.ClassAccepts | common/common.cpp:728-807 | anywhere in a pattern, a class written with characters, ranges, a dash or bracket at its start and a negation takes one character that one of the written entries has, or none if negated |
| GlobClasses.OneClass | common/common.cpp:728-807 | a pattern that is such a class accepts exactly the texts of one such character |
| GlobClasses.QuestionAccepts | common/common.cpp:786-788 | a question mark takes one character that is not a slash |
| GlobClasses.OpenBracketAccepts | common/common.cpp:789-808 | a bracket that is not closed takes itself |
| GlobClasses.NegatedBracket | common/common.cpp:789-800 | `[!]` takes any character |
| GlobMatch.PlainPattern | common/common.cpp:809-812 | a pattern without special characters accepts itself only |
| GlobMatch.StarAfter | common/common.cpp:768-785 | text and a star accept its continuations without a slash, text and two stars all continuations |
| LongestCommonSubstring.Lcs | common/common.cpp:470-489 | a common substring, none is longer, and none as long starts earlier in the first text |
| LongestCommonSubstring.SuffixIsLongest | common/common.cpp:477-486 | a table cell is the length of the longest common suffix of the two prefixes |
| ProcessEscapes.ProcessInPlace | common/common.cpp:645-680 | the buffer ends with the unescaped original text, as nothing is overwritten before it is read |
| ProcessEscapes.ProcessOne | common/common.cpp:649-677 | one character or escape writes only cells already read |
| ProcessEscapes.UnescapeInverts | common/common.cpp:645-680 | unescaping undoes every way to write each character: itself, a short escape, two hexadecimal digits |
| ProcessEscapes.SignRead | common/common.cpp:658-669 | a blank or plus in place of the first hexadecimal digit counts as zero, a minus takes the second one from 256 |
| ProcessEscapes.UnescapePrinted | common/common.cpp:645-680 | and so a printer that escapes newline, return, tab, quotes and backslash |
| ProcessEscapes.UnchangedExactly | common/common.cpp:645-680 | a text is left unchanged if and only if no position starts an escape that is recognised |
| PartialStop.FindPartialStop | common/common.h:864-877 | the start of the longest end of the text that begins the stop word, or none |
| PartialStop.LongestIsEarliest | common/common.h:864-877 | that is the earliest position where, with some continuation, an occurrence that reaches the end of the text may start |
| PermuteGrammar.Builder.RemainingOf | common/chat-peg-parser.cpp:252-271 | makes rules for a mask and what it needs, never two for one mask, and none already there changes |
| PermuteGrammar.Permute | common/chat-peg-parser.cpp:239-274 | nothing for no members, the sequence for one or more than six, and else the rule of the full mask |
| PermuteGrammar.EveryMask | common/chat-peg-parser.cpp:252-273 | there is a rule for every non-empty mask and for no other |
| PermuteGrammar.RuleOrderings | common/chat-peg-parser.cpp:252-271 | the rule of a mask derives exactly the orderings of its members, one rule deep per member |
| PermuteGrammar.PermuteLanguage | common/chat-peg-parser.cpp:239-274 | for two to six members the words are exactly all permutations |
| PermuteGrammar.SequenceLanguage | common/chat-peg-parser.cpp:245-247 | the sequence derives the given order only |
| PermuteGrammar.LimitedOrders | common/chat-peg-parser.cpp:245-247 | for more than six members an exchange of the first two is not derived |
| PermuteGrammar.AllOrders | common/chat-peg-parser.cpp:239-274 | for any number of members, exactly all orders are derived if and only if there are six at most |
| Base64.EncodeBytes | common/base64.hpp:80-144 | the loop writes the groups of three bytes, the last one padded |
| Base64.AlphabetIsTable | common/base64.hpp:80-144 | the characters are those of the tables of RFC 4648 (sections 4 and 5), in order |
| Base64.GroupIsDigits | common/base64.hpp:88-138 | three bytes are written as the six-bit digits, from the top, of their 24-bit number |
| Base64.ShortGroup | common/base64.hpp:94-136 | one or two bytes at the end are filled up with zero bits, and with padding to four characters |
| Base64.DecodeString | common/base64.hpp:200-244 | the loops give the decoded bytes or the error |
| Base64.DecodeInPlace | common/base64.hpp:294-313 | decoding a buffer into itself gives the bytes, and fails exactly when, decoding elsewhere does |
| Base64.RoundTrip | common/base64.hpp:80-244 | decoding undoes encoding for every byte string, both alphabets, with detection, with or without padding (sections 4 and 5 of RFC 4648) |
| Base64.EncodeSize | common/base64.hpp:338-341 | the encoded length is the announced one |
| Base64.DecodeSize | common/base64.hpp:324-327 | eight bits make a byte and the rest is dropped, so the announced size is never exceeded |
| Base64.Decodes | common/base64.hpp:200-244 | a text decodes if and only if the characters before the padding are of one alphabet and, unless loose, only padding follows |
| CsvRow.ParseCsvRow | common/arg.cpp:1347-1389 | the loop computes the fields |
| CsvRow.ParsePrinted | common/arg.cpp:1343-1389 | parsing undoes printing of any non-empty list of fields, plain fields quoted or not, all others quoted (section 2 of RFC 4180), and plain text may follow a closing quote |
| CsvRow.ParseUnclosed | common/arg.cpp:1355-1388 | a quoted field that is not closed goes on to the end of the row |
| CsvRow.PlainExactly | common/arg.cpp:1355-1380 | a field written without quotes comes back if and only if it has no comma and no quote at its start |
| GgmlFile.Hyperparameters.Load | convert_llama_ggml_to_gguf.py:59-73 | the seven fields, or the error |
| GgmlFile.Hyperparameters.SetFeedForward | convert_llama_ggml_to_gguf.py:53-57 | the width is the second dimension of the first layer's tensor |
| GgmlFile.Vocab.Load | convert_llama_ggml_to_gguf.py:84-98 | appends the items read and returns the bytes they took, or the error |
| GgmlFile.ReadTensor | convert_llama_ggml_to_gguf.py:110-131 | the data lies after the header, ends where reading goes on, and is aligned to 32 when padded; its size wraps around at 64 bits |
| GgmlFile.LoadTensors | convert_llama_ggml_to_gguf.py:188-194 | tensors until the data is used up, with the last position of each name |
| GgmlFile.GgmlModel.ValidateHeader | convert_llama_ggml_to_gguf.py:145-166 | format, version and header length, or the error |
| GgmlFile.GgmlModel.Load | convert_llama_ggml_to_gguf.py:180-200 | the object holds the model read, or the first error is returned |
| GgmlProofs.RegionsApart | convert_llama_ggml_to_gguf.py:110-131 | in every file that loads the regions are in order and disjoint, in GGJT each starts at a multiple of 32, and loading stops at the last one's end |
| GgmlProofs.IndexIsLast | convert_llama_ggml_to_gguf.py:193-199 | the map gives the last tensor of each name, and the feed-forward width is read through it |
| GgmlProofs.RoundTrip | convert_llama_ggml_to_gguf.py:145-200 | a file written in any of the three formats loads as its model up to the end, whatever is cut off after the last tensor's header |
| GgmlProofs.PayloadsInPlace | convert_llama_ggml_to_gguf.py:122-131 | the bytes at each tensor's recorded place in the file are its data |
| GgmlProofs.CutLoads | convert_llama_ggml_to_gguf.py:190-200 | the beginning of a file loads as the file's model if and only if it has all of the last tensor's header |
| GgmlProofs.CutFile | convert_llama_ggml_to_gguf.py:190-200 | a file without its four bytes of data loads, with a tensor that lies beyond its end |
| GgmlProofs.UniqueIndex | convert_llama_ggml_to_gguf.py:193-194 | with unique names the map is the tensors' numbering |
| GgmlProofs.EligibleExactly | convert_llama_ggml_to_gguf.py:168-186 | a file is refused for its quantisation if it is neither F32 nor F16, nor GGJT 2 with a K, Q5 type, nor GGJT 3, and every file that loads is one of these |
| GgmlProofs.FtypesKnown | convert_llama_ggml_to_gguf.py:28-45 | the file types accepted are the seventeen listed |
| GgmlProofs.HeaderExactly | convert_llama_ggml_to_gguf.py:145-166 | which magic and version give which format, and which error every other gives |
| GgmlProofs.AbsurdExactly | convert_llama_ggml_to_gguf.py:84-113 | items and names of 4096 bytes or more and tensors of more than four dimensions are refused |
| GgmlProofs.NamesSpelled | convert_llama_ggml_to_gguf.py:53-166 | the magics and the tensor that gives the width are these texts |
| GgmlProofs.BlockSizes | gguf-py/gguf/constants.py:5845-5859 | the bytes of a block of each type are those of its scales and minima and of its elements' bits |

## Left out

- LoRA tensors over other element types: elements are real numbers, so rounding and the conversion of mixed types are not modelled.
- LoRA tensors with fancy indices: keys hold integers, slices and ellipses, not index tensors.
- LoraAccepts.TupleAccepts: for keys that end in two integers it is not said which are accepted; `LoraKeys.VectorKey` says that what they give has one axis too many.
- LoraEllipsis.EllipsisCommutes: keys with several ellipses, which the class expands one by one, are given no meaning (`LoraEllipsis.KeysWithMeaning`).
- LoRA adapter files, name filters and GGUF writing: input, output and library calls.
- Text is a sequence of characters up to the Unicode limit; invalid UTF-8, which the JSON library refuses, is not modelled, and escapes of code points above 0xFF are not decoded.
- PythonValues.PrintedValue: texts hold characters that Python prints as they are, newlines, returns and tabs; Python writes all others as numeric escapes, which JSON does not have.
- The parser engine: events and trees are inputs, that a longer text's tree continues a shorter one's is assumed, and choice in the permutation grammar is read as a grammar, not as ordered choice.
- ToolCallProofs.TaggedCall: a string value has one event at least, and only that of the last argument may lack its closing event; events between a close and the next open that would use the dropped call are excluded.
- The other mappers built on this one, and the overriding of value normalisation in subclasses.
- ChatDiff.ComputeDiffs: messages have reasoning, content and tool calls; the fields that the deltas never carry are not modelled.
- Messages that shrink: the code sends an empty delta by design, so delivery is not claimed.
- ChatStream.PipelineDelivers: events are cut only as `ChatStream.CutExactly` finds necessary once the arguments are in the message.
- MessageSpans.Split: skip lengths are unbounded numbers, so a sum that wraps around is not modelled.
- ProcessEscapes.ProcessInPlace: works on an array and returns the new length instead of resizing a string.
- PermuteGrammar.Builder.RemainingOf: a rule is identified by its mask, the name prefix being fixed; masks are numbers whose bits are counted by halving.
- Base64.DecodeInPlace: on an error the partly overwritten buffer is not described.
- GgmlFile.ReadTensor: a tensor whose size wraps around to a negative number is an error here; in the original the offset then goes backwards, so that loading need not end.
- GgmlFile.GgmlModel.Load: keeps the hyperparameters and the vocabulary as values rather than as shared objects; scores are opaque groups of four bytes; what an object holds after a failed load is not described.
- The remaining helpers of common/common.cpp, common/common.h and common/arg.cpp (trimming, joining, replacing, CPU masks, line breaking): each is a single loop whose result reads like its code.
