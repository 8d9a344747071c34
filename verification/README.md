# Muka-AI-Trim in Dafny

Muka-AI-Trim stands between an agent and its model provider. The sending end
replaces a request body by a *block program*: literal byte runs and references
to content-addressed blocks. Only what the peer lacks crosses the link, and the
peer rebuilds the exact bytes before it calls the upstream. This project models
the six components that carry that promise and proves what they promise, for
all inputs and over whole runs.

| file | component |
|---|---|
| `Blocks.dfy`, `Resolve.dfy`, `Programs.dfy` | block programs: what they denote, the stack machine that expands them, the missing-block walk, literal merging |
| `Policy.dfy`, `Splitter.dfy`, `SplitBody.dfy`, `Chains.dfy`, `Pushes.dfy`, `Limits.dfy`, `Documents.dfy` | the builder that turns a body and candidate spans into a program, the whole of splitting one body, what a split ships and when there is one, splits that nest too deep, what gets past the peer's decoder, and requests whose split does not |
| `Scan.dfy`, `Rfc8259.dfy`, `Extents.dfy`, `Unescape.dfy`, `Strictness.dfy`, `Recognition.dfy` | the JSON span scanner against a byte-level RFC 8259 grammar |
| `Grouping.dfy`, `Laminar.dfy`, `Payloads.dfy` | from scanned spans to groups and their children, and the groups of a document said of its text |
| `Chunking.dfy` | content-defined chunking |
| `Store.dfy`, `Recency.dfy`, `Bloom.dfy` | the block store, what recency means over a run, its membership snapshot, the sender's optimistic view |
| `Session.dfy`, `Link.dfy`, `Runs.dfy`, `Repairs.dfy`, `Retries.dfy`, `Beliefs.dfy` | both ends of the link protocol frame by frame, the invariant of a connection, whole runs, what comes of one request, of a failed attempt, and of what the sender believes the peer holds |
| `Varint.dfy`, `Codec.dfy` | the wire encodings |
| `EndToEnd.dfy` | where the parts meet |

How to read it. Code that changes things step by step is a class or a method
with loops, and its contract equates the new state, or the result, with a
function of the old state; the lemmas then prove what the source promises about
that function. A digest is a datatype value of a role and the exact bytes, so it
is injective; the gear table, the Bloom hash, the peer's presence, the upstream
and the clock are arbitrary parameters. Integers are unbounded and the 64-bit
wrap-around of the size sums, the rolling hash, the Bloom indices and the varint
shifts is written out. Soundness of a store is denotational: a block under a
digest stands for exactly the bytes of that digest, whether it is stored raw or
as a program, so the two ends may store the same digest differently.

## What is proved

* **Runs.** Over every interleaving of any number of turns and connections,
  with evictions, resets, broken links and arbitrary presence guesses, every
  call upstream carries the agent's own head and exact bytes
  (`Runs.EveryCallIsExact`), no end ever reports a mismatch and the two ends
  count repair rounds in step (`Runs.EveryLinkInStep`), and every agent hears
  the start of one single reply, with at most two attempts, the second whole
  (`Runs.EveryAgentHearsOneReply`).
* **Split then resolve is the identity** for every body, policy, gear table and
  presence answer (`SplitBodies.SplitThenResolve`), and the accounts are exact.
  For every list of candidates of any kinds, in any order and however they
  overlap, on any sound store, the program expands to exactly the body or is too
  deep, and it is the body if and only if no chain of blocks is longer than 32
  (`SplitBodies.ListResolves`).
* **Only what the peer lacks crosses the link.** No block is pushed whose digest
  presence did not deny, and under a presence that does not change its mind the
  pushed references are exactly those it lacks (`Pushes.OnlyDeniedIsPushed`,
  `Pushes.SteadyPushes`). When a body is split, and into which program, is known
  from its candidates (`Pushes.DecisionExactly`).
* **Exact extents and exact acceptance** of the JSON scanner: bracket counting
  finds the true extent of every RFC 8259 value
  (`Extents.ScannedExact`), and `strict_document` accepts exactly the object
  texts within the depth limits whose surrogates pair up
  (`Recognition.StrictExactly`).
* **Laminar grouping** as a declarative statement about enclosure
  (`LaminarGroups.GroupsAreLaminar`); the builder skips nothing
  (`SplitBodies.StructuralSplitCoversAll`). The plan of a document is given from
  its text alone: which strings are payloads, which values are blocks, and what
  is inside what (`Payloads.PayloadsExactly`, `Payloads.PlanExactly`).
* **The stack machine refines recursive expansion** on every source, cyclic ones
  included (`Resolve.Run`).
* **What comes of one request.** On a quiet link, every frame going through
  both ends' own steps, a split body goes upstream, once and exactly, if and only
  if the greeting is accepted, the program and every block sent get past the
  peer's decoder, the two ends have between them all it takes, and the rounds
  of repair, known in advance, fit the bound (`Repairs.SplitBodyIsForwarded`,
  and from the splitter on `EndToEnd.SplitIsDelivered`). What gets past the
  decoder is known before the send (`Limits.GroupBlockDecodes`,
  `Limits.ProgramGetsAcross`). A whole body always goes upstream within the size
  limit (`Repairs.WholeBodyIsForwarded`). So on every run a split that fails
  before anything was delivered is sent again whole, and gets through
  (`Retries.EveryFailureIsAnswered`, `Retries.RetryIsForwarded`).
* **Pruning** always restores both ceilings (`Stores.PruneMeetsCeilings`), is
  least-recently-used when nothing expired (`Stores.PruneIsLru`), by the last use
  of each block over the whole run (`Recency.EvictsLeastRecentlyUsed`), and takes more
  than needed exactly under a stated condition (`Stores.PruneIsMinimalWhen`);
  every interleaving of lock sections is safe
  (`Stores.EveryInterleavingIsSafe`).
* **Chunking** ends every chunk at the first place where a sum over the bytes
  lets it (`Chunking.ChunksExactly`) and **resynchronises**
  (`Chunking.Resynchronises`), **the wire delimits
  itself** (`Codec.WireIsSelfDelimiting`), and **the membership snapshot has no
  false negatives across the link** (`Blooms.NoFalseNegatives`).

## Where the code and its own words differ

* `prune` counts expired blocks in the overage it works off
  (`crates/muka-store/src/lib.rs:225-243`), so it can evict live blocks that
  would fit. `Stores.OverEviction` is a run of two insertions after which it
  does; `Stores.PruneIsMinimalWhen` and `Stores.NewestSurvivesWhen` say exactly
  when it does not.
* The instruction limit of 200,000 is described as matched at both ends
  (`crates/muka-gateway/src/session.rs:40-41`), but the splitter checks it at every
  reference and adds the literal tail afterwards
  (`crates/muka-split/src/splitter.rs:307-308,365`), so a program can be one
  longer than the limit: exactly when the candidates that fit and the gaps
  between them, tail included, are one more (`Limits.SplitLength`). A request of
  100,000 messages of 128 bytes is such a body under the default policy
  (`Documents.DefaultOneTooMany`). The peer's decoder then drops the connection.
* The programs of nested blocks are not limited by the splitter at all, but are
  by the decoder, which takes a group's block exactly when `Limits.GroupBlockDecodes`
  says so. A request whose one message has 100,000 payloads of 4 KiB is split
  under the default policy and pushes a block the peer refuses
  (`Documents.DefaultManyPayloads`).
* The modelled program cost is meant never to understate the encoding
  (`crates/muka-proto/src/codec.rs:323-325`). It leaves out the instruction count and takes every
  length field to be three bytes; `Codec.CostModelError` gives the exact error,
  and `Codec.CostModelUnderstates` programs of one reference it understates.
* Varint decoding accepts encodings the writer never produces
  (`Varints.OverlongIsAccepted`) and drops six bits of a tenth byte
  (`Varints.TenthByteIsCut`). Encoding what was decoded gives the same bytes back
  exactly when no byte was wasted (`Varints.CanonicalExactly`).
* The twelve-byte frame header holds every stream below 2^49 but not every
  64-bit stream (`Codec.HeaderNeverOverflows`); from where on depends on how long
  the payload is (`Codec.HeaderFitsExactly`).
* The Bloom decoder accepts a filter of no bits, of which a lookup computes a
  remainder by zero (`Blooms.NoBitsIsAccepted`, and exactly when in
  `Blooms.DecodedAnswers`); an honest store never makes one.
* With arbitrary candidate lists a chain of nested blocks can pass the depth
  limit of 32, even if each child's kind differs from its parent's: 33 groups
  over 561 bytes do (`Chains.ChainIsTooDeep`). What `structural_groups` and the
  chunker really produce nests two levels only (`SplitBodies.PlansAreShaped`).
* `missing_blocks`, asked about a peer's own store, never looks inside blocks
  that are present: missing nested blocks surface one a round, which is what
  `Repairs.RoundsNeeded` counts.

## Model

| member | source | states |
|---|---|---|
| Blocks.TotalLenWraps | crates/muka-split/src/program.rs:253-255 | the declared size of a program is the true sum of its parts modulo 2^64 |
| Blocks.FlatLength | crates/muka-split/src/program.rs:24-30 | what a program with right lengths denotes is as long as its declared lengths add up to |
| Blocks.DenotingVerifies | crates/muka-store/src/lib.rs:84-89 | every block that stands for its digest, whatever it nests, passes the check made on insertion |
| Resolve.Run | crates/muka-split/src/program.rs:138-188 | the explicit-stack machine ends on every source, cyclic or changing, and agrees in result and first error with recursive left-to-right expansion |
| Resolve.Fetch | crates/muka-split/src/program.rs:157-178 | the checks on one reference fail in the order and with the errors of the expansion, or give the body to use |
| Resolve.PushExpands | crates/muka-split/src/program.rs:175-183 | pushing a program in reverse and running on is expanding it first |
| Resolve.ExpandBounded | crates/muka-split/src/program.rs:138-188 | output only grows and never passes the limit, on every source |
| Resolve.ExactLength | crates/muka-split/src/program.rs:157-184 | on any store whose blocks passed the insertion check, even with programs that denote wrong bytes, a success has exactly the declared length |
| Resolve.ExpandSound | crates/muka-split/src/program.rs:138-188 | on a denotationally sound store a program yields exactly its meaning, or stops at an absent block or the depth limit |
| Resolve.ExpandNotTooDeep | crates/muka-split/src/program.rs:157-160 | nesting that follows a ranking within the limit never stops at the depth limit |
| Resolve.ExpandNotMissing | crates/muka-split/src/program.rs:157-164 | with everything reachable in place, no block is missing |
| Resolve.OkIsWithin | crates/muka-split/src/program.rs:157-160 | on a store nothing changes, what expands at all nests no deeper than the limit |
| Resolve.WithinIsNotTooDeep | crates/muka-split/src/program.rs:157-160 | and what nests no deeper never stops at the limit |
| Resolve.HonestExpansion | crates/muka-gateway/src/session.rs:634-637 | blocks coming and going between lookups, the result is the exact body or a block that really was absent |
| Resolve.CompleteExpansion | crates/muka-split/src/program.rs:138-188 | with everything in place the result is the exact body |
| Programs.MissingBlocks | crates/muka-split/src/program.rs:194-229 | the loop computes the walk over a peer and a store that may change at every step, and ends on cyclic stores |
| Programs.LiveWalkReports | crates/muka-split/src/program.rs:194-229 | whatever changes meanwhile, nothing is reported twice, past the limit, or present each time it was asked about |
| Programs.SteadyWalk | crates/muka-split/src/program.rs:194-229 | while nothing changes it is the walk over one store |
| Programs.MissingIsLeastCover | crates/muka-split/src/program.rs:194-229 | what is reported is distinct, absent from the peer, within the limit, closed under nesting when below it, and contained in every such cover |
| Programs.MissingFromSelf | crates/muka-gateway/src/session.rs:630-633 | asked about its own store an end reports exactly the absent top-level references, and nothing exactly when all are there |
| Programs.PushingMissingSuffices | crates/muka-split/src/program.rs:190-229 | a peer that can expand what it claims, given the reported blocks, never misses one: whatever the blocks say, however deep or cyclic they nest, and for every program and limit |
| Programs.PushingMissingRebuilds | crates/muka-split/src/program.rs:190-229 | over honest blocks it rebuilds the exact body |
| Programs.Normalize | crates/muka-split/src/program.rs:232-251 | the loop merges literals as the reference does |
| Programs.NormalizePreservesMeaning | crates/muka-split/src/program.rs:232-251 | same result or same first error everywhere, no empty or adjacent literals left, and doing it twice changes nothing |
| Programs.NormalizedDenotes | crates/muka-split/src/program.rs:232-251 | merging keeps the denoted bytes, the literal bytes and the references |
| Splitter.Builder.FlushLit | crates/muka-split/src/splitter.rs:259-269 | the literal run up to an offset is emitted once and counted |
| Splitter.Builder.Queue | crates/muka-split/src/splitter.rs:272-283 | a block is queued, counted and written once per digest |
| Splitter.Builder.Reference | crates/muka-split/src/splitter.rs:285-311 | a candidate too short or overlapping is refused and changes nothing; any other adds its literal lead, its block and one reference |
| Splitter.Builder.MakeBlock | crates/muka-split/src/splitter.rs:313-359 | the block of a group is raw, or the merged program that lifts out the children that fit, children queued first |
| Splitter.Builder.Finish | crates/muka-split/src/splitter.rs:361-384 | the decision: limits hit, nothing recognised, inflated, or the split with its accounts |
| Splitter.BlockForDenotes | crates/muka-split/src/splitter.rs:313-359 | whichever children fit, of whatever kinds, the block made stands for exactly the bytes of its span, unless it is a program of nothing |
| Splitter.BlockForHonest | crates/muka-split/src/splitter.rs:313-359 | when only whole JSON values nest, and nest payloads, it nests payloads only |
| Splitter.BlockForSize | crates/muka-split/src/splitter.rs:313-359 | its program has one instruction for every child that fits and one for every gap |
| Splitter.BlockIsRaw | crates/muka-split/src/splitter.rs:315-358 | the block of a group is raw exactly when it has no children, or none that fits in a span of any bytes |
| Splitter.ChildrenKeep | crates/muka-split/src/splitter.rs:321-345 | every nested child ends up queued before its parent or claimed by presence |
| Splitter.ReferenceKeeps | crates/muka-split/src/splitter.rs:285-311 | after every candidate, of any kinds, in any order and however they overlap, the program denotes exactly the bytes passed so far and all accounts are right |
| Splitter.ReferencePushes | crates/muka-split/src/splitter.rs:285-359 | what a reference pushes is the group's block or the raw block of one of its children |
| Splitter.FinishGood | crates/muka-split/src/splitter.rs:361-384 | a finished split denotes the body, refers only to pushed or claimed digests, pushes in order, and its cost is exact and within the slack |
| SplitBodies.ListResolves | crates/muka-split/src/splitter.rs:285-398 | from any list of groups in the body, of any kinds, in any order and however they overlap: on any sound store with the pushed blocks and the closure of what presence claimed, the program expands to exactly the body or is too deep; on one nothing changes, it is the body if and only if no chain of blocks is longer than 32 |
| Pushes.ListPushesDenied | crates/muka-split/src/splitter.rs:297-345 | and only blocks whose digests presence denied are pushed |
| Splitter.SplitResolves | crates/muka-split/src/splitter.rs:388-398 | the last step of that: for a good split, any sound store with the pushed blocks and the closure of what presence claimed expands the program to exactly the body, or stops at the depth limit |
| Splitter.SplitIsIdentityWhen | crates/muka-split/src/splitter.rs:388-398 | it is the body if and only if no chain of references through program blocks is longer than 32 |
| Splitter.SplitIsIdentity | crates/muka-split/src/splitter.rs:388-398 | the two-level case: any honest store with the pushed blocks and the closure of what presence claimed resolves the program to the body |
| Chains.ChainIsTooDeep | crates/muka-split/src/splitter.rs:285-398 | a family of candidate lists, each child's kind unlike its parent's, that the builder splits: the chain of n groups resolves to the body up to 32 groups and is too deep from 33 on |
| Splitter.PushedBlocksAreAccepted | crates/muka-split/src/splitter.rs:272-359 | every pushed block passes the store's check, no digest is pushed twice, and nested blocks come before the block that nests them |
| SplitBodies.SplitBody | crates/muka-split/src/splitter.rs:33-70 | the gates, the structural plan or the chunks, and the builder's decision, for every policy |
| SplitBodies.EverySplitIsGood | crates/muka-split/src/splitter.rs:33-384 | every split, whatever the body, policy, gear table and presence answers, is good over what it pushes and what presence really claimed, and pushes only honest blocks made for its groups |
| SplitBodies.SplitThenResolve | crates/muka-split/src/splitter.rs:33-70 | split then resolve is the identity, end to end |
| Pushes.OnlyDeniedIsPushed | crates/muka-split/src/splitter.rs:297-345 | of every split only blocks whose digests presence denied are pushed; none at all when it claims everything |
| Pushes.SteadyPushes | crates/muka-split/src/splitter.rs:294-345 | under a presence that always says the same, of the references in the program and in the pushed blocks exactly those the peer lacks are pushed; a top-level reference counts as new exactly when the peer lacks it, and all count as hits when it has everything |
| Pushes.WrittenThrough | crates/muka-split/src/splitter.rs:272-283 | a pushed block is written to the local store exactly when it was not there |
| Pushes.DecisionExactly | crates/muka-split/src/splitter.rs:33-69 | the gates in order; then the structural groups if there are any, else the chunks exactly if the fallback is on; passed through exactly when references and gaps before them pass the limit, no candidate fits, or the cost is more than the body and a sixteenth of it, at least 1024; else the program of the candidates, whatever presence answers |
| Pushes.ChunkPlanExactly | crates/muka-split/src/splitter.rs:51-59 | the chunks of a whole body, one group each, with the larger of the two floors as their least length, cut as the chunker cuts |
| SplitBodies.StructuralSplitCoversAll | crates/muka-split/src/splitter.rs:59-66 | a structural split has exactly one reference a group, in document order |
| SplitBodies.PlansAreShaped | crates/muka-split/src/splitter.rs:47-66 | both plans only nest payloads in whole JSON values, inside the body |
| Limits.GroupBlockDecodes | crates/muka-proto/src/codec.rs:195-278 | the peer's decoder takes a group's block exactly when it fits a frame and its children and gaps are within the instruction limit |
| Limits.SmallSplitPasses | crates/muka-gateway/src/session.rs:257-261 | of a body of up to 56 MiB and fewer than 100,000 payloads a value, every pushed block gets past the decoder |
| Documents.PartsPlanned | crates/muka-split/src/splitter.rs:74-212 | an object text of one message with n media members is planned as one group over all n payloads |
| Documents.ManyPayloadsAreRefused | crates/muka-split/src/splitter.rs:285-359 | of payloads of 40 bytes or more, to a peer thought to have nothing and for every policy that looks for its message and its payloads: it is split, the block of that group is pushed and honest, and from 100,000 payloads on the peer's decoder refuses it |
| Documents.DefaultManyPayloads | crates/muka-split/src/policy.rs:57-74 | so it is of 100,000 payloads of 4 KiB, 410 MB, under the default policy |
| Limits.SplitLength | crates/muka-split/src/splitter.rs:307-366 | a split has one instruction for every candidate that fits and every gap, which depends on the candidates alone; so it is longer than the limit exactly when these are one more |
| Limits.ProgramGetsAcross | crates/muka-gateway/src/session.rs:505-507 | of a body of up to 56 MiB the peer's decoder takes the program exactly when these are within its own limit |
| Documents.MessagesPlanned | crates/muka-split/src/splitter.rs:74-164 | an object text of n equal string messages is planned as n groups of one string each |
| Documents.OneTooMany | crates/muka-split/src/splitter.rs:285-366 | of strings of 41 bytes or more, under a limit of 2n instructions and whatever presence answers: it is split into 2n + 1, which a decoder of the same limit refuses |
| Documents.DefaultOneTooMany | crates/muka-split/src/policy.rs:57-74 | so it is of 100,000 messages of 128 bytes, 13 MB, under the default policy: 200,001 instructions |
| Scan.ScanString | crates/muka-split/src/json.rs:90-120 | the loop finds the closing quote, or the first fault, as the reference does |
| Scan.ScanNumber | crates/muka-split/src/json.rs:122-165 | sign, integer, fraction and exponent as the reference reads them |
| Scan.ScanBrackets | crates/muka-split/src/json.rs:194-222 | string-aware bracket counting to the matching close |
| Scan.ScanValue | crates/muka-split/src/json.rs:180-230 | one value at any depth, with the scanner's own errors |
| Scan.MembersOfObject | crates/muka-split/src/json.rs:233-274 | the members of an object span in order, keys decoded |
| Scan.ElementsOfArray | crates/muka-split/src/json.rs:277-305 | the elements of an array span in order |
| Scan.DecodeString | crates/muka-split/src/json.rs:360-420 | escapes and surrogate pairs decoded to bytes, as the reference does |
| Scan.ScanDocument | crates/muka-split/src/json.rs:309-323 | one object and nothing but whitespace around it |
| Scan.Validate | crates/muka-split/src/json.rs:326-350 | every level descended into, first fault first |
| Scan.StrictDocument | crates/muka-split/src/json.rs:353-357 | scan, then validate |
| Extents.StringExact | crates/muka-split/src/json.rs:90-120 | a grammatical string is spanned exactly, whatever follows |
| Extents.NumberExact | crates/muka-split/src/json.rs:122-165 | a grammatical number is spanned exactly before anything that cannot extend it |
| Extents.ContainerExact | crates/muka-split/src/json.rs:194-222 | counting brackets finds the end of every grammatical container |
| Extents.ValueExact | crates/muka-split/src/json.rs:180-230 | every RFC 8259 value text is scanned to its true extent and kind |
| Extents.ScannedExact | crates/muka-split/src/json.rs:176-230 | the same at any offset, after whitespace, within the depth limit |
| Unescape.StringDecodes | crates/muka-split/src/json.rs:360-420 | a string whose surrogates pair up decodes to the UTF-8 of its characters |
| Unescape.NoReplacement | crates/muka-split/src/json.rs:383-416 | the replacement character is never what a lone escape decodes to |
| Unescape.NoReplacementForPairs | crates/muka-split/src/json.rs:383-416 | nor what a surrogate pair decodes to |
| Unescape.OnlySurrogatesFail | crates/muka-split/src/json.rs:360-435 | whatever string scanning accepts, decoding can reject for surrogates only |
| Strictness.MembersExact | crates/muka-split/src/json.rs:233-274 | the members of a grammatical object are exactly its items |
| Strictness.ElementsExact | crates/muka-split/src/json.rs:277-305 | the elements of a grammatical array are exactly its items |
| Strictness.TextValidates | crates/muka-split/src/json.rs:326-350 | a grammatical value within the depth limit, surrogates paired, validates |
| Strictness.DocumentAccepted | crates/muka-split/src/json.rs:353-357 | every such object text, with whitespace around it, is accepted |
| Recognition.AcceptedIsDocument | crates/muka-split/src/json.rs:309-357 | whatever is accepted is such a text |
| Recognition.StrictExactly | crates/muka-split/src/json.rs:309-357 | accepted if and only if it is an RFC 8259 object text within the limits with surrogates paired |
| Grouping.CollectPayloads | crates/muka-split/src/splitter.rs:170-212 | payloads of a value, depth and count limited, appended in document order |
| Grouping.CollectAdds | crates/muka-split/src/splitter.rs:170-212 | what is collected is long enough, disjoint, in order and inside the value |
| Grouping.SortByKey | crates/muka-split/src/splitter.rs:105-106 | sorted by start and end, a permutation |
| Grouping.SortedIsUnique | crates/muka-split/src/splitter.rs:105-106 | disjoint candidates have one sorted order |
| Grouping.MembersLaminar | crates/muka-split/src/splitter.rs:76-113 | candidates and payloads of a scanned document are each disjoint and in order, and every pair is nested or disjoint |
| Grouping.AssignPayloads | crates/muka-split/src/splitter.rs:115-137 | one pass with a moving index hands out the payloads |
| Grouping.MergeGroups | crates/muka-split/src/splitter.rs:139-166 | groups and promoted payloads merged by start |
| Grouping.StructuralGroups | crates/muka-split/src/splitter.rs:74-166 | the groups of a document, or none when a level cannot be scanned |
| Payloads.CollectIs | crates/muka-split/src/splitter.rs:170-212 | what is collected of any value that stands in a buffer, from its text: its strings that are payloads, in order, all of the first 4096 |
| Payloads.PayloadsExactly | crates/muka-split/src/splitter.rs:170-232 | of a document, up to the cap of 4096: a string within the depth limit and of at least the least length is a payload if and only if it is under a media key (there one level deeper too), or opens with "data: and is longer than seven bytes, or is 4096 bytes or longer; media in the first two cases, text else |
| Payloads.BlocksAre | crates/muka-split/src/splitter.rs:74-109 | the blocks of a document: the elements of messages and input, and eight other members as a whole, that are long enough |
| Payloads.PlanExactly | crates/muka-split/src/splitter.rs:74-164 | the groups of every document, from its text: its blocks with the payloads inside them, the other payloads alone, nothing else, in document order |
| LaminarGroups.AssignIsEnclosure | crates/muka-split/src/splitter.rs:123-137 | the moving index gives each payload to the one candidate enclosing it and promotes the rest, as if every pair had been compared |
| LaminarGroups.MergeSpaced | crates/muka-split/src/splitter.rs:139-166 | the merged list is in document order and disjoint |
| LaminarGroups.MergeKeepsAll | crates/muka-split/src/splitter.rs:139-166 | merging loses and duplicates nothing |
| LaminarGroups.GroupsAreLaminar | crates/muka-split/src/splitter.rs:74-166 | groups are disjoint and in order, hold exactly the payloads inside them, promoted payloads stand alone, nothing is lost, and every group is ready for the builder |
| LaminarGroups.EveryChildCut | crates/muka-split/src/splitter.rs:321-345 | no child of such a group is skipped when its block is made |
| LaminarGroups.EveryGroupCovered | crates/muka-split/src/splitter.rs:285-311 | no such group is skipped when it is referenced |
| Chunking.CdcCandidates | crates/muka-split/src/cdc.rs:20-46 | the loop makes the chunks of the reference, each a candidate with the floor |
| Chunking.ChunksTile | crates/muka-split/src/cdc.rs:20-46 | chunks tile the range; none is longer than max(1, min, max) and all but the last are at least max(1, min) long |
| Chunking.HashIsSum | crates/muka-split/src/cdc.rs:27-34 | the rolling hash is the sum of the table's values, each byte's weighing twice that of the byte after it, modulo 2^64 |
| Chunking.ChunksExactly | crates/muka-split/src/cdc.rs:20-46 | the chunks are the one way to cut the range up in which each ends at the first place where it may: it is at least min long, and the low bits of that sum are zero or it is at least max long |
| Chunking.RollSpreads | crates/muka-split/src/cdc.rs:33 | one wrapping step makes hashes agree on one more low bit |
| Chunking.CutDependsOnLastBytes | crates/muka-split/src/cdc.rs:22-36 | the cut test depends on the last min(bits, 40) bytes only |
| Chunking.Resynchronises | crates/muka-split/src/cdc.rs:20-46 | two bodies with a common ending and one common boundary in it have the same boundaries from there on |
| Stores.BlockStore.Touch | crates/muka-store/src/lib.rs:132-143 | a held block gets a rank above every other's and the time given; the others keep theirs and nothing else changes |
| Stores.BlockStore.Get | crates/muka-store/src/lib.rs:145-164 | the block under the digest, which passes the check; a held block gets a rank above every other's and the time given, the others keep theirs |
| Stores.BlockStore.Insert | crates/muka-store/src/lib.rs:168-207 | refused exactly when not matching, too large or held; otherwise kept, and pruned when over |
| Stores.BlockStore.Prune | crates/muka-store/src/lib.rs:212-252 | the pruned state for the recency order, and both ceilings |
| Stores.BlockStore.Clear | crates/muka-store/src/lib.rs:263-270 | empty, counted as evictions |
| Stores.SumLens | crates/muka-store/src/lib.rs:250-251 | the recomputed total is the sum of the lengths left |
| Stores.Sorted | crates/muka-store/src/lib.rs:228-229 | all digests by recency, the oldest first |
| Stores.Choose | crates/muka-store/src/lib.rs:216-244 | the victims: expired blocks, then the oldest until both excesses are used up |
| Stores.EvictIsShortest | crates/muka-store/src/lib.rs:230-243 | the victims besides those already gone are the fewest oldest that free both excesses, or all |
| Stores.PruneMeetsCeilings | crates/muka-store/src/lib.rs:212-252 | after pruning both ceilings hold, always |
| Stores.PruneIsLru | crates/muka-store/src/lib.rs:225-243 | with nothing expired the victims are the shortest prefix in recency order restoring both ceilings, and survivors are newer than victims |
| Stores.NewestSurvivesWhen | crates/muka-store/src/lib.rs:212-252 | the newest block survives exactly when it has not expired and the other blocks that have not free the whole excess, counted with the expired ones |
| Stores.NewestSurvives | crates/muka-store/src/lib.rs:168-252 | a block just inserted survives when one block fits both ceilings and nothing expired |
| Stores.PruneIsMinimalWhen | crates/muka-store/src/lib.rs:216-243 | pruning takes no more than needed exactly when the oldest that must go free the excess counted with the expired blocks, or nothing else is left |
| Stores.OverEviction | crates/muka-store/src/lib.rs:168-252 | a run of two insertions from the empty store, neither over the ceiling by itself, after which pruning evicts the newest block although it fits |
| Stores.SectionKeeps | crates/muka-store/src/lib.rs:132-270 | every lock section keeps the invariant and the reach of pending prunes |
| Stores.EveryInterleavingIsSafe | crates/muka-store/src/lib.rs:132-270 | over all interleavings: total is the sum, recencies distinct, stored is held plus evicted, entries pass the check, and p pending prunes put it over by at most p blocks |
| Recency.UseRaises | crates/muka-store/src/lib.rs:132-199 | adding, touching or getting a held block puts its rank above all others and gives it the time; the others keep rank and time |
| Recency.RankIsLastUse | crates/muka-store/src/lib.rs:132-199 | at every moment of every run the blocks held rank by their last use, and carry its time |
| Recency.EvictsLeastRecentlyUsed | crates/muka-store/src/lib.rs:212-252 | on every run pruning takes every block whose last use is further back than the limit, and any other block it takes was used less recently than every block it leaves |
| Recency.OnlyPruningEvicts | crates/muka-store/src/lib.rs:132-270 | a block goes by pruning or by clearing everything, and in no other way |
| Recency.EverythingIsCounted | crates/muka-store/src/lib.rs:145-207 | over a whole run hits, misses, insertions, their bytes and refusals are counted |
| Stores.AddShows | crates/muka-store/src/lib.rs:187-201 | an insertion shows others one block more |
| Stores.PruneShows | crates/muka-store/src/lib.rs:245-251 | pruning shows others the same blocks without the victims |
| Blooms.WithBitSets | crates/muka-store/src/lib.rs:332-336 | setting a bit of a word sets that bit and no other |
| Blooms.AddFromSets | crates/muka-store/src/lib.rs:332-355 | adding a digest sets exactly its own bits |
| Blooms.AddedIsFound | crates/muka-store/src/lib.rs:332-342 | what was added is found and what was found stays found |
| Blooms.IndexInRange | crates/muka-store/src/lib.rs:344-355 | every index addresses a word that is there |
| Blooms.EmptyIsSized | crates/muka-store/src/lib.rs:319-326 | a new filter is well sized, and within the decoder's limit exactly up to 6,710,886 blocks |
| Blooms.Bloom.Add | crates/muka-store/src/lib.rs:332-336 | the bits are set in place |
| Blooms.Bloom.Query | crates/muka-store/src/lib.rs:338-355 | true exactly when every bit is set, and a remainder by zero exactly on a filter of no bits with hashes to compute |
| Blooms.DecodedAnswers | crates/muka-store/src/lib.rs:344-382 | a decoded filter answers exactly when it has bits, that is when at least one word came with it |
| Blooms.NoBitsIsAccepted | crates/muka-store/src/lib.rs:367-382 | the decoder accepts a filter of no bits |
| Blooms.Snapshot | crates/muka-store/src/lib.rs:274-281 | answers true for every held digest, in whatever order they were added, and is within the decoder's limit exactly up to 6,710,886 blocks |
| Blooms.BytesRoundTrip | crates/muka-store/src/lib.rs:357-382 | a filter survives its bytes exactly when within the limit |
| Blooms.EncodeBloom | crates/muka-proto/src/msg.rs:176-182 | epoch, blocks and filter bytes |
| Blooms.DecodeBloom | crates/muka-proto/src/msg.rs:184-191 | the decoder computes the parse, errors included |
| Blooms.BloomRoundTrip | crates/muka-proto/src/msg.rs:176-191 | the message decodes to what was encoded |
| Blooms.SnapshotBytes | crates/muka-proto/src/msg.rs:176-182 | the layout of the message byte by byte, on small values |
| Blooms.Optimistic.NotePushed | crates/muka-split/src/presence.rs:47-52 | pushed digests are believed present |
| Blooms.Optimistic.Clear | crates/muka-split/src/presence.rs:55-57 | nothing is believed beyond the snapshot |
| Blooms.Optimistic.Query | crates/muka-split/src/presence.rs:68-75 | pushed, or what the snapshot answers when it is readable |
| Blooms.NoFalseNegatives | crates/muka-gateway/src/session.rs:327-330 | across the link, a snapshot of any size the decoder takes, up to 6,710,886 blocks, never denies a held block |
| Session.LocalEnd.Begin | crates/muka-gateway/src/session.rs:225-277 | greeting on the first request only, head, payload, one end of body; the pushed digests, and no others, are believed present from then on |
| Session.LocalEnd.OnFrame | crates/muka-gateway/src/session.rs:279-366 | what the sender does with each frame: what it answers, hands the agent, believes of the peer from then on, and the result; an agent that has gone ends the request |
| Session.RequestEnds | crates/muka-gateway/src/session.rs:279-366 | when a request ends on the sender's side, well or badly, over all frames |
| Session.AnswerNeed | crates/muka-gateway/src/session.rs:300-312 | the blocks asked for that are held, then exactly one end of body |
| Session.Rebuild | crates/muka-gateway/src/session.rs:622-646 | missing top-level blocks, else expansion or the literal, else a mismatch, on a store that may change at every lookup |
| Session.RebuildIsExact | crates/muka-gateway/src/session.rs:622-646 | over honest blocks a declared body is rebuilt exactly or something is missing, never a mismatch; a whole body needs nothing |
| Session.RemoteEnd.Attempt | crates/muka-gateway/src/session.rs:530-570 | forward, ask again within the bound, or fail and close |
| Session.RemoteEnd.Serve | crates/muka-gateway/src/session.rs:574-601 | the call, the relayed reply, and a peer ready for the next request |
| Session.RemoteEnd.OnFrame | crates/muka-gateway/src/session.rs:457-617 | what the peer does with each frame, in and out of repair, the greeting's version and proof included; a frame that does not decode closes the connection |
| Session.PeerCloses | crates/muka-gateway/src/session.rs:457-617 | when the peer closes the connection, over all frames and states |
| Session.Driver.Failed | crates/muka-gateway/src/local.rs:450-464 | one retry, whole, for a split first attempt with nothing delivered and a recoverable error, and for nothing else |
| Link.UploadLeads | crates/muka-gateway/src/session.rs:240-272 | from a peer at rest, an upload brings exactly the job's program or body to the end of body |
| Link.AttemptOutcome | crates/muka-gateway/src/session.rs:525-578 | a ready peer forwards exactly the job's head and body, or asks, or gives up past the bound; a whole body is forwarded at once |
| Link.RemoteKeeps | crates/muka-gateway/src/session.rs:448-615 | whatever the peer reads keeps the connection's invariant; what goes upstream is exact and at most once a job; offered blocks are honest |
| Link.LocalKeeps | crates/muka-gateway/src/session.rs:279-366 | whatever the sender reads keeps it; the only errors are a refused greeting, a plea for the whole body, an agent that left and a snapshot past the decoder's limit; its own bound on repairs never fires; success means all of one complete reply was delivered |
| Link.ReplyEventsAre | crates/muka-gateway/src/session.rs:325-342 | what the agent is given of a reply is its status and every chunk, in order |
| Link.AnswersNeed | crates/muka-gateway/src/session.rs:295-315 | a Need is the last frame on the link and is answered by exactly one end of body |
| Link.CutKeeps | crates/muka-gateway/src/session.rs:281-284 | a broken link, at any frame, keeps it |
| Link.StartKeeps | crates/muka-gateway/src/session.rs:225-277 | a keep-alive request starts right after the last, resets in between included |
| Runs.MoveKeeps | crates/muka-gateway/src/session.rs:216-646 | every move of the system keeps the invariant |
| Runs.RunsAreSafe | crates/muka-gateway/src/session.rs:216-646 | every state of every run satisfies the invariant |
| Runs.EveryCallIsExact | crates/muka-gateway/src/session.rs:525-580 | every call upstream carries the turn's own head and exact bytes; at most one call an attempt; a second attempt's is whole |
| Runs.EveryAgentHearsOneReply | crates/muka-gateway/src/local.rs:433-466 | at most two attempts, the second whole with nothing delivered before; the agent gets the start of one reply, all of it on success |
| Runs.EveryLinkInStep | crates/muka-gateway/src/session.rs:295-315 | no mismatch is ever reported, a whole body is never asked about, and the peer is ahead by exactly the one Need on its way |
| Runs.EveryBlockIsHonest | crates/muka-gateway/src/session.rs:514-521 | every block either store ever holds stands for its digest |
| Retries.EveryFailureIsAnswered | crates/muka-gateway/src/local.rs:433-466 | on every run, a first attempt that was a split, had delivered nothing and fails in one of seven ways leaves its turn waiting with the whole body; after any other failure the turn is done with that error |
| Retries.RefusalIsRetried | crates/muka-gateway/src/session.rs:286-319 | a refused greeting, a plea for the whole body and a reset are such failures |
| Retries.RetryIsForwarded | crates/muka-gateway/src/local.rs:450-464 | the second attempt may start on any new connection, and there exactly the body goes upstream, if it is within the size limit and the greeting is accepted |
| Beliefs.BeliefsFollow | crates/muka-gateway/src/session.rs:281-330 | over all frames read of a request: what was pushed is forgotten exactly if one of them says so, and the snapshot is the last among them |
| Beliefs.RestartIsNoticed | crates/muka-gateway/src/session.rs:471-493 | an accepted greeting makes the sender forget exactly when the peer holds nothing and is past its first epoch; a refused one ends the request |
| Beliefs.GivingUpForgets | crates/muka-gateway/src/session.rs:530-570 | a peer that gives up makes the sender forget exactly when blocks are what it lacks |
| Beliefs.ResetEmpties | crates/muka-gateway/src/session.rs:603-610 | a reset read between two requests leaves the peer's store empty and changes nothing else about it |
| Beliefs.ReplyRefreshes | crates/muka-gateway/src/session.rs:316-366 | a complete reply leaves the sender with the snapshot sent with it, and with what it pushed still believed |
| Beliefs.HeldIsSeen | crates/muka-gateway/src/session.rs:316-366 | so from then on no block the peer held when it replied is thought absent |
| Repairs.WholeBodyIsForwarded | crates/muka-gateway/src/session.rs:263-272 | the chunked whole body is forwarded with no Need and no Fail if and only if it is within the peer's size limit |
| Repairs.RoundMakesProgress | crates/muka-gateway/src/session.rs:530-570 | a round whose blocks are held and kept leaves strictly fewer reachable digests absent |
| Repairs.FirstNeed | crates/muka-gateway/src/session.rs:630-633 | the first Need names exactly the absent top-level blocks |
| Repairs.BlocksRead | crates/muka-gateway/src/session.rs:514-557 | blocks sent to a peer, each through its own frame step, are kept if all get past its decoder; otherwise the connection ends without a word |
| Repairs.AnswerIsRead | crates/muka-gateway/src/session.rs:543-557 | reading the answer to a Need adds exactly the blocks the sender holds of it if all of them decode, and otherwise ends the connection |
| Repairs.RepairTakes | crates/muka-gateway/src/session.rs:530-570 | as long as answers get across, the rounds taken are one for all absent top-level blocks and one for each nested block still absent, asking for exactly those digests |
| Repairs.StarvedTalk | crates/muka-gateway/src/session.rs:530-570 | what neither end has is never rebuilt |
| Repairs.SplitBodyIsForwarded | crates/muka-gateway/src/session.rs:216-601 | a split request on a quiet link is forwarded, once and exactly, if and only if the greeting is accepted, the program and all blocks sent get past the decoder, the ends have all it takes and the rounds fit the bound; nothing goes upstream otherwise |
| Varints.WriteUvarint | crates/muka-proto/src/varint.rs:17-27 | appends the unsigned LEB128 form |
| Varints.Reader.Uvarint | crates/muka-proto/src/varint.rs:47-61 | reads up to ten bytes in 64-bit arithmetic, errors included |
| Varints.CountVarint | crates/muka-proto/src/codec.rs:160-168 | the length of the encoding |
| Varints.UvarintRoundTrip | crates/muka-proto/src/varint.rs:17-61 | decoding what was encoded gives it back and stops right after, whatever follows |
| Varints.VarintLenBound | crates/muka-proto/src/codec.rs:160-168 | at most k bytes exactly below 128^k |
| Varints.CanonicalExactly | crates/muka-proto/src/varint.rs:17-61 | encoding what was decoded gives the same bytes exactly when the last is not zero, unless it is the only one, and a tenth is below two |
| Varints.OverlongIsAccepted | crates/muka-proto/src/varint.rs:47-61 | an encoding the writer never makes is read |
| Varints.TenthByteIsCut | crates/muka-proto/src/varint.rs:47-61 | of a tenth byte only the lowest bit counts, whatever the others are |
| Codec.Encode | crates/muka-proto/src/codec.rs:129-136 | tag, stream, length, payload |
| Codec.Decode | crates/muka-proto/src/codec.rs:143-157 | the parse, with its errors and no trailing bytes |
| Codec.FrameRoundTrip | crates/muka-proto/src/codec.rs:129-157 | a frame within the limit decodes to itself |
| Codec.WireIsSelfDelimiting | crates/muka-proto/src/io.rs:10-78 | any frames written back to back read back as the same sequence |
| Codec.WriteVarintInto | crates/muka-proto/src/io.rs:25-36 | fills the header in place and touches nothing before it |
| Codec.WriteFrame | crates/muka-proto/src/io.rs:10-23 | what goes on the link is the frame's encoding |
| Codec.ReadFrame | crates/muka-proto/src/io.rs:39-58 | none on a clean end, else exactly the frame that stands there |
| Codec.ReadLink | crates/muka-proto/src/io.rs:39-78 | frame after frame until the link is empty |
| Codec.HeaderNeverOverflows | crates/muka-gateway/src/session.rs:105-107 | below 2^49 and 64 MiB the header fits; the flat charge covers a frame exactly when it does |
| Codec.HeaderFitsExactly | crates/muka-proto/src/io.rs:14-18 | a header fits always below 128 payload bytes, else exactly for streams below 2^63, 2^56 or 2^49 as the payload's length takes two, three or four bytes |
| Codec.EncodeProgram | crates/muka-proto/src/codec.rs:175-193 | count, then each instruction |
| Codec.DecodeProgram | crates/muka-proto/src/codec.rs:195-226 | the parse, with its limits and errors |
| Codec.ProgramRoundTrip | crates/muka-proto/src/codec.rs:175-226 | a program within the limits decodes to itself |
| Codec.CostModelError | crates/muka-split/src/program.rs:80-89 | the encoding's exact size against the modelled cost; at most the count over when lengths are below 2^21 |
| Codec.CostModelUnderstates | crates/muka-split/src/program.rs:80-89 | one reference to a block of 2^14 bytes or more, below 2^21, takes 21 bytes against a modelled 20 |
| Codec.EncodeBlock | crates/muka-proto/src/codec.rs:260-293 | digest, mark, kind, length, body |
| Codec.DecodeBlock | crates/muka-proto/src/codec.rs:235-279 | the parse of either shape |
| Codec.BlockRoundTrip | crates/muka-proto/src/codec.rs:235-293 | a block decodes to itself, for bytes exactly when its length is right |
| Codec.ProgramPassesExactly | crates/muka-proto/src/codec.rs:175-226 | encoded, framed and decoded, a program comes through exactly when its size and its count are within the limits |
| Codec.BlockPassesExactly | crates/muka-proto/src/codec.rs:235-293 | and so does a block |
| Codec.WireBytes | crates/muka-proto/src/codec.rs:129-293 | the layout of frames, programs, blocks and needs byte by byte, on small values |
| Codec.EncodeNeeds | crates/muka-proto/src/msg.rs:150-157 | count and digests |
| Codec.DecodeNeeds | crates/muka-proto/src/msg.rs:159-173 | the parse, limited |
| Codec.NeedsRoundTrip | crates/muka-proto/src/msg.rs:150-173 | decodes to itself exactly within the limit, trailing bytes ignored |
| EndToEnd.EverySplitMayBeSent | crates/muka-gateway/src/local.rs:392-417 | every split is a payload the runs account for |
| EndToEnd.StoreDoesAsAssumed | crates/muka-gateway/src/session.rs:514-521 | the store changes as the runs assume when a block is offered |
| EndToEnd.RightGuessNeedsNoRepair | crates/muka-gateway/src/session.rs:622-646 | with the pushed blocks in and presence right, the peer rebuilds at once |
| EndToEnd.SplitIsDelivered | crates/muka-gateway/src/session.rs:216-646 | every split body, from cutting it up to the call: on a quiet link it goes upstream, with its own head and bytes, if and only if it is forwardable, and nothing else does |
| EndToEnd.SmallSplitForwardable | crates/muka-gateway/src/session.rs:500-570 | for bodies of up to 56 MiB and fewer than 100,000 payloads a value, which condition remains of that: candidates and gaps within the decoder's limit, and what the stores hold |

## Left out

- Sockets, TLS, HTTP, the upstream client and tokio tasks: links are FIFO queues of frames, the upstream is an arbitrary reply, possibly none, possibly broken off.
- BLAKE3, zstd and the gear table: digests are injective values, the gear table is arbitrary, and frames are not compressed. The limit on what gets across is the same either way, since the ceilings on a frame and on an inflated payload are both 64 MiB.
- The JSON form of control messages: `Hello`, `RequestHead`, `Fail` and the rest are carried unchanged.
- Ping, Pong, PeerStats, unknown frames and stream numbers: they change no state the properties are about.
- Counters, latencies, ratios, the turn log, metrics, the console, configuration, pairing and the command line.
- Wall clock: every store operation takes the time as an argument, unrelated from call to call.
- Runs.MoveKeeps: a peer handles one frame, and relays one reply, in one step; a link that breaks half way through is the same step followed by a cut of the queue.
- Link.LocalKeeps: a response chunk of more than 64 MiB reaches the agent here; the sender's end would drop the connection, which is one of the cuts.
- Runs.RunsAreSafe: presence is not part of the state; a split may be based on any presence answers at all, which covers every wrong guess. What each frame does to it is in `Session.LocalEnd`.
- Repairs.SplitBodyIsForwarded: on a quiet link the peer's store keeps every block it is offered, so its own size ceiling and pruning do not come in; what they do is in `Store.dfy`, and that no run goes wrong with them in `Runs.dfy`.
- Beliefs.BeliefsFollow: the sender's view is shared by its connections; what another connection pushes or forgets meanwhile is not part of this statement about one.
- Splitter.Builder.Queue: whether the local store took a written block is a flag beside it; the local store itself is in `Store.dfy`.
- Stores.EveryInterleavingIsSafe: totals and statistics are unbounded naturals; the bound proved keeps them below 2^64 for every configuration whose own sum is.
- Grouping.SortByKey: the library sort is any stable sort by the key; the order of disjoint candidates is unique.
- Frame tags are bytes 1 to 23 without names, and the wire codec is generic in a sixteen-byte digest, apart from the injective digests of the rest.
