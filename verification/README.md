# A model of the effects crate

This project models the access language of `crates/effects` and proves what its evaluator, its
rules, its printers and its identities promise. It is a Dafny project: `dfyconfig.toml` names every
file, and each module follows one part of the crate.

A package's method declares, in clauses, every cell a call may touch. Evaluating a signature over a
call's arguments yields one declaration in several views at once: the accesses in clause order, the
span of each clause in that order, which clauses were taken, where each element of a top-level loop
landed, the conditions, the proven claims, and the accesses folded into a set. Deciding all of that
is charged to two meters, one for the signature and one shared by the whole envelope.

| module | what it holds |
|---|---|
| `Vocabulary`, `Syntax`, `Sequences`, `ByteOrder` | words, values, addresses, keys, modes; the declared forms; the hashing seam; how widths and digests are read |
| `Evaluation` | what an expression evaluates to and what that costs, with no ceiling on the work |
| `Metering`, `Evaluator` | the two meters, and the evaluator as it runs against them |
| `Algebra` | what the operators mean, said without their own definitions |
| `Meaning`, `Laws`, `Refusals` | what a term means, which of its subterms that reads and at what price, equations between terms, and why a term or a clause refuses |
| `Taint` | an expression that reads no call input answers alike for every caller |
| `EffectSets` | accesses folded by target, reserves summed |
| `Clauses`, `Targets` | what clauses declare, over any way their parts evaluate; the way they do evaluate |
| `TargetEvaluator`, `ClauseEvaluator` | the clause evaluator as it runs, filling one declaration in place |
| `Numbering`, `Firings`, `Views`, `Alignment` | the line numbers, which lines a call fires and what they make, and how every view of a declaration lines up |
| `Readings`, `Declarations` | a clause's parts, and a whole declaration, told by what the expressions in them answer |
| `Acceptance`, `Spending` | exactly which declarations evaluate, and exactly what they spend |
| `Shapes`, `Calls`, `Envelope` | static shapes; whole calls; many calls on one envelope's meter |
| `Rules`, `StoredRules`, `Grants`, `Holders` | the threshold algebra; a stored rule's wire form; granted rules resolved into sealed ones; who meets them |
| `Printer`, `Exports` | expressions printed and parsed; the exports line |
| `Artifact` | the metadata section of a wasm module, per sections 5.2.2, 5.5.2 and 5.5.3 of the WebAssembly Core Specification |
| `Identity`, `Cells` | intent and graph hashes; crossing leaves read back off key and value |
| `Footprint`, `Routing` | the price of a declaration; its projection onto shards |

## How it is put together

**A price beside every verdict.** `Evaluation` is a function from a term to a verdict and the units
of work reaching it takes. It knows no ceiling. `Evaluator` is the evaluator as written: recursive
methods that charge mutable meters. `Metering.Settles` says what the two have to do with each other,
and every method of `Evaluator`, `TargetEvaluator` and `ClauseEvaluator` is proved to settle: the
verdict is the unmetered one exactly where its cost fits both meters, the meters then stand at
exactly that much more, and otherwise one of them is past its ceiling and is the one that spoke.
The two ceilings are fields of the meters, at the source's own figures unless others are given, so
that raising one is something a result can speak of.

**Meanings beside evaluation.** `Meaning.Means` is what a term stands for: no meter, no nesting bound,
no refusal, and the loop elements around it listed innermost first. `Meaning.EvalFinds` proves that
evaluation answers exactly that, exactly where what it reads nests within the bound, for a unit a
term read, eight a hash and the walk of every value copied, encoded, compared or built.
`Readings` and `Declarations` carry it up: a target, a mode, a rule, a claim or a loop's list
evaluates to a thing exactly where its expressions tell of that thing, and a declaration is told by
its expressions alone. `Acceptance` says exactly which declarations evaluate, with no run in sight, and
`Spending` exactly what those spend, so that `Calls.EvaluateExpr` and `Calls.EvaluateCall`, the two
entry points, are accepted if and only if something a reader can work out from the terms holds.

**Clauses over any parts.** `Clauses` evaluates clauses over a record of how their parts evaluate
(`Parts`), so what `Firings`, `Views` and `Alignment` prove holds whatever the expressions inside a clause mean.
`Targets.PartsOf` is the way they do evaluate, and `ClauseEvaluator` is proved against it.

**Firings beside the run.** `Firings` lists, with no counters, caps or state, which lines of a
declaration fire and over which path of loop elements. A run that answers is proved to declare
exactly what that list makes, in its order, and every view is spoken of in its terms.

**What became a parameter.** Hashing and the canonical encodings are function values: a `Seam`
(hash, value encoding, grants encoding), an `Identifier` and a `Codec`. Where a result needs them
to tell values apart it says so with `CollisionFree`, `Injective` or `Canonical`. A digest is kept
whole in a key rather than cut to the width a leaf keeps, because no cut can be collision-free over
every input. Slot widths, the committed record's leaf bytes and the address of an issued resource are
parameters of `Evaluation.Inputs`; `Calls.InputsFor` ties the last of these to `Grants`. Machine
widths are subset types, and every saturating, checked or clamped operation is written out.

**Explicit-stack walks.** Where the source pops a stack's end after pushing children reversed, the
model keeps the stack's top first, so pushing children in order leaves them in order.

**One clause a call.** The source's clause evaluator takes a slice, and both its callers hand it a
slice of one; the model takes one clause.

**Where code and comment part.** The comment on `listed_line` says a sited binding on a clause that
is not a loop names no line; the code answers the clause's own line for site zero, and
`Numbering.SitesOfPlainClauses` says exactly that. The comment on `MAX_RULE_WIRE_DEPTH` says that
cap admits exactly the stored rules within `MAX_RULE_DEPTH`, a terminal costing two levels. The
derived codec takes three levels for a claim and a fourth for the instance a claim names, so a rule
within the caps that holds a claim of one instance at its last level is neither written nor read:
`StoredRules.DeepInstancesDoNotDecode` gives one, `StoredRules.WrittenIsReadBack` says which rules
those are, and `Grants.EntriesSealExactly` which declared entries run into it.

## Model

| member | source | states |
|---|---|---|
| Metering.EvalBudget.Spend | crates/effects/src/dsl.rs:1389-1395 | the envelope's meter stops at the top of its width rather than wrapping, and refuses exactly past its ceiling |
| Metering.Budget.Charge | crates/effects/src/dsl.rs:1448-1454 | one clause or iteration charged, refused past 4096 |
| Metering.Budget.Spend | crates/effects/src/dsl.rs:1465-1471 | charging settles: both meters move by exactly the units, or the one past its ceiling refuses, the signature's first |
| Evaluator.WalkValue | crates/effects/src/dsl.rs:2115-2127 | the stack walk visits exactly what the recursive measure counts: a unit a node and a unit per eight bytes |
| Algebra.WalksAddUp | crates/effects/src/dsl.rs:2115-2127 | walking a joined list is walking both, less the one list saved; a tuple walks as its list does and a list of one as its element and one more (bytes, one more for every eight, in `WholeValuesAreOneVisit`) |
| Evaluator.RejectBucket | crates/effects/src/dsl.rs:2464-2479 | the stack walk refuses exactly where a bucket sits anywhere in the value |
| Algebra.BucketsAreFoundAtAnyDepth | crates/effects/src/dsl.rs:2464-2479 | a value is refused exactly where a bucket sits somewhere in it, at any depth |
| Evaluator.Compare | crates/effects/src/dsl.rs:2402-2412 | structural equality within one kind, a bucket on either side refused first |
| Evaluator.FindPair | crates/effects/src/dsl.rs:2371-2395 | the scan settles against a recursive search that pays for the probe at every pair it looks at, first match winning and a malformed pair refused where it is reached |
| Evaluator.ReadIds | crates/effects/src/dsl.rs:2484-2496 | an id set is read to the recursive reading of it: every element a word, none repeated, at most sixty-four |
| Evaluator.Force | crates/effects/src/dsl.rs:2135-2143 | a borrowed value is paid for by its walk when kept, an owned one costs nothing more |
| Evaluator.EvalExpr | crates/effects/src/dsl.rs:2189-2336 | for every term, inputs and starting meters, the metered verdict is the unmetered one exactly where its cost fits both ceilings, the meters then hold exactly the sum, no more subterms are evaluated than units spent, and what is answered is what the term means |
| Meaning.EvalFinds | crates/effects/src/dsl.rs:2189-2336 | every term answers its meaning exactly where the subterms it reads nest within the bound, hands out in place exactly what an input or a literal holds, and costs a unit a subterm read, eight a hash and every walk taken |
| Laws.BindingsCountOut | crates/effects/src/dsl.rs:2099-2105 | a binding of zero is the innermost loop's element, and one more out is what one fewer was outside that loop |
| Laws.InputsAreNamedByPosition | crates/effects/src/dsl.rs:2089-2096 | an argument or a configuration field is the one at its position, and nothing past the end |
| Laws.SelectionsPick | crates/effects/src/dsl.rs:2220-2230 | a selection on a constant answers the arm the constant picks |
| Laws.NegationsSelect | crates/effects/src/dsl.rs:2299 | negating answers as selecting the other constant does |
| Laws.SequencesSay | crates/effects/src/dsl.rs:2339-2358 | a list or tuple of terms answers their answers, in order |
| Laws.PartsProjectBack | crates/effects/src/dsl.rs:2240-2252 | a field of a tuple answers the term it was made from, a sole element likewise, and a length the number of terms |
| Laws.PacksUnpack | crates/effects/src/dsl.rs:2288-2292 | a packed number is exactly the one whose quotient and remainder by two to the sixty-four its operands answer |
| Laws.SumsAndOrder | crates/effects/src/dsl.rs:2416-2462 | a sum does not mind its operands' order, and of two numbers of one width exactly one is less, or they are equal |
| Refusals.RefusalsOfInputs | crates/effects/src/dsl.rs:2089-2105 | an input past the end is refused by the position named, and nothing else handed out or drawn is refused but a record that is missing |
| Refusals.RefusalsOfOne | crates/effects/src/dsl.rs:2238-2252 | a term over one operand refuses as the operand does, or for exactly what the operand answers: the kind wanted and found, the field and the arity, the length that is not one |
| Refusals.RefusalsOfTwo | crates/effects/src/dsl.rs:2253-2330 | a term over two refuses as the first operand does, or for it where it is judged alone, then as the second does, then for both: widths, overflow, kinds, a miss told from a malformed table, the first id that is wrong |
| Refusals.RefusalsOfChoices | crates/effects/src/dsl.rs:2220-2228 | a selection refuses as its condition does, or for one that is no flag, and otherwise only as the arm it takes |
| Refusals.RefusalsOfDecisions | crates/effects/src/dsl.rs:2302-2313 | a decision refuses as its left operand does and, only where that does not settle it, as its right |
| Evaluator.AnswerTerm | crates/effects/src/dsl.rs:2209-2228 | the handing terms answer a borrow and a selection evaluates only the arm it takes |
| Evaluator.DecideValue | crates/effects/src/dsl.rs:2302-2313 | `and` and `or` stop at a left operand that settles them, and the right one then costs nothing |
| Evaluator.ScanValue | crates/effects/src/dsl.rs:2253-2260 | a lookup copies out the one entry the scan hits and refuses a miss |
| Evaluator.ScanTable | crates/effects/src/dsl.rs:2253-2260 | the table is read as a list before the probe is evaluated, and then scanned for it |
| Evaluator.EqualValue | crates/effects/src/dsl.rs:2315-2324 | both operands' walks are paid before equality is judged |
| Evaluator.PartValue | crates/effects/src/dsl.rs:2238-2252 | a projection pays for the one part it copies out, never its container |
| Evaluator.ChildValue | crates/effects/src/dsl.rs:2266-2275 | a child key reads its owner, then its slot, then its material |
| Evaluator.SlotUnder | crates/effects/src/dsl.rs:1955-1991 | an argument-named slot reaches a value cell of the shape asking, or a package's own band, and nothing else |
| Evaluator.EncodeMaterial | crates/effects/src/dsl.rs:2069-2086 | material is evaluated and encoded in order, each encoding walk charged, stopping at the first refusal |
| Evaluator.KeepAll | crates/effects/src/dsl.rs:2339-2358 | every element is kept in order, each charged for the copy that keeps it |
| Algebra.ScansStopAtTheFirst | crates/effects/src/dsl.rs:2371-2395 | a scan stops at the first entry that is no pair or is under the key, answers by which it is, and pays for the probe once for every entry it looked at |
| Algebra.MembershipMirrorsLookup | crates/effects/src/dsl.rs:2326-2329 | membership is true exactly where a lookup answers, false only where it misses, and refused wherever it is refused |
| Algebra.IdSetsAreDistinctWords | crates/effects/src/dsl.rs:2484-2496 | a list reads as an id set if and only if it is those words, in order, none repeated, within the cap |
| Algebra.EdgesProjectBack | crates/effects/src/dsl.rs:2026-2036 | projecting a built instance edge gives back the resource and the ids it was built from |
| Algebra.OnlyMetersRefuseForWork | crates/effects/src/dsl.rs:2189-2336 | no term refuses for work unmetered, so a work refusal is always a meter's |
| Taint.UntaintedIsCallerBlind | crates/effects/src/dsl.rs:418-507 | an expression that reads no call input gives the same value, the same refusal and the same cost under any two argument lists and binding stacks |
| Taint.TargetIsCallerBlind | crates/effects/src/dsl.rs:604-642 | a target none of whose parts reads a call input resolves alike, at the same cost and width, for every caller |
| Taint.TaintIsAnInputWithin | crates/effects/src/dsl.rs:418-507 | an expression is taken to read the call exactly where an argument or a loop's element is named somewhere in it |
| Taint.InputsTellCallersApart | crates/effects/src/dsl.rs:418-507 | whatever an argument or element answers one call, another call to the same target is answered otherwise |
| Taint.AuthorityIsCallerBlind | crates/effects/src/rule.rs:726-729 | a rule naming no caller authority asks every caller for the same claims and stored rules, leaf for leaf |
| Taint.AuthorityIsNamedByInputs | crates/effects/src/rule.rs:726-729 | a rule names the caller's authority exactly where a claim or a stored rule's cell holds an input; a presence never does |
| EffectSets.FoldIsTheSum | crates/types/src/effect.rs:87-129 | folding is refused exactly where some target's reserves pass the amount's width, and otherwise holds each target's exact reserve total, every other mode declared on it and the narrowest width stated for it |
| EffectSets.FoldIgnoresOrder | crates/types/src/effect.rs:87-129 | any order of the same accesses folds to the same set, or is refused alike |
| TargetEvaluator.ReadTarget | crates/effects/src/dsl.rs:1861-1919 | a target settles: owner, collection, then order or bounds, an inverted interval refused before its cap is read |
| TargetEvaluator.ReadCollection | crates/effects/src/dsl.rs:1923-1936 | a collection pays for its hash once its slot and material are read |
| TargetEvaluator.ReadMode | crates/effects/src/dsl.rs:2006-2022 | a mode settles, keeps its directions, and reserves exactly the number its expression answers |
| TargetEvaluator.ReadReach | crates/effects/src/dsl.rs:1746-1763 | a reach is over the resource the target's key is first derived from, and an unkeyed target refuses it |
| TargetEvaluator.ReadRules | crates/effects/src/dsl.rs:1808-1837 | a rule's branches are evaluated leaf for leaf in order, stopping at the first refusal |
| TargetEvaluator.ReadItems | crates/effects/src/dsl.rs:1671-1678 | a loop's list is kept, paid for, and refused past 1024 elements |
| TargetEvaluator.ReadProven | crates/effects/src/dsl.rs:1612-1631 | a claim that is nobody's badge is refused unless the expression is the target itself |
| Readings.TargetsTell | crates/effects/src/dsl.rs:1861-1953 | a target evaluates to exactly the key, owner, collection, order, interval and cap its expressions answer, the interval running upward |
| Readings.ModesTell | crates/effects/src/dsl.rs:2006-2022 | a reserve is of exactly the number its expression answers, and every other mode is as spelled |
| Readings.HoldsTell | crates/effects/src/dsl.rs:1723-1740 | an access holds exactly the resource its denomination answers |
| Readings.ReachesTell | crates/effects/src/dsl.rs:1746-1771 | a reach is under its own behaviour, of exactly the resource the target is keyed by |
| Readings.RulesTell | crates/effects/src/dsl.rs:1808-1839 | a condition evaluates to exactly the tree of the declared shape and counts whose every leaf is what its own expressions answer |
| Readings.ProofsTell | crates/effects/src/dsl.rs:1623-1647 | a proven claim is exactly the badge's its expression answers, or the target's own spelled as itself |
| Readings.ItemsTell | crates/effects/src/dsl.rs:1658-1682 | a loop maps exactly the list its expression answers, up to 1024 elements |
| Targets.ConditionsKeepTheirStage | crates/effects/src/dsl.rs:1808-1837 | a declared rule and the rule it evaluates into are judged at one stage and are within the caps together |
| Targets.JudgedLeavesAlign | crates/effects/src/rule.rs:616-627 | each leaf of the judged tree is its declared twin's evaluation, in order |
| Algebra.TargetsAreWellPlaced | crates/effects/src/dsl.rs:1861-1919 | a target spelled under the callee sits under the callee, each target evaluates to its own shape, and every interval runs upward |
| ClauseEvaluator.EvalClause | crates/effects/src/dsl.rs:1529-1573 | one clause settles against the unmetered clause: its number taken before its guard, its verdict filed at the top level, a guarded-out loop's lines still counted; the loop bindings are as they were on every path |
| ClauseEvaluator.DeclareAccess | crates/effects/src/dsl.rs:1575-1605 | an access evaluates target and mode, is charged, evaluates what it carries, and only then folds and lands |
| ClauseEvaluator.DeclareProves | crates/effects/src/dsl.rs:1612-1647 | a proven claim is widened where it names an instance, and the claims are held to eight |
| ClauseEvaluator.EvalExpansion | crates/effects/src/dsl.rs:1483-1512 | one element's pass notes, at the end of each row, where that body clause landed |
| ClauseEvaluator.MapItems | crates/effects/src/dsl.rs:1688-1698 | each element is charged, bound and walked from the body's first line, and the rows are the passes' landings transposed |
| ClauseEvaluator.LoopOver | crates/effects/src/dsl.rs:1678-1707 | a loop restores its depth, resumes past its whole body and files its rows only at the top level |
| ClauseEvaluator.EvaluateDeclaration | crates/effects/src/dsl.rs:1330-1362 | a signature's evaluation on a fresh allowance is the unmetered declaration exactly where its total cost fits, and then the envelope's meter stands at exactly that much more |
| Calls.EvaluateExpr | crates/effects/src/dsl.rs:1520-1527 | one expression on a fresh allowance answers exactly its meaning, if and only if it has one, what it reads nests at most 33 deep, and its price and the copy kept fit both meters |
| Calls.EvaluateCall | crates/effects/src/dsl.rs:1330-1362 | a call is accepted if and only if its declaration is acceptable and its bill fits both meters, the envelope then holding exactly that much more; and an accepted one is aligned in every view, folds its own accesses, and is within 4096 clauses and iterations, 8 claims and 65536 subterms |
| Acceptance.DeclarationsEvaluateExactly | crates/effects/src/dsl.rs:1330-1362 | a declaration evaluates if and only if every guard, list and part it reaches does, the lines that fire and the elements mapped number at most 4096, the claims at most 8, the clauses reached nest at most 5, and every target's reserves fit their width |
| Spending.DeclarationsSpendTheirBill | crates/effects/src/dsl.rs:1330-1362 | a declaration that evaluates spends exactly the price of every expression it reads: guards, then where they hold their lines, then a body for every element, with eight a collection's hash |
| Spending.TargetsSpend | crates/effects/src/dsl.rs:1861-1936 | a target costs its owner, its slot where an argument names it, its material read and encoded, one hash, and its order or ends and cap |
| Refusals.RefusalsOfClauses | crates/effects/src/dsl.rs:1529-1647 | a clause refuses for its depth, then as its guard does, then as its line does: an access placed before it is counted and carried before it lands, a requirement or proof counted first |
| Calls.CallsReadWhatTheyAreMadeWith | crates/effects/src/dsl.rs:2214-2235 | a call reads its own arguments, the callee's configuration, address and record, and draws of its own identity and node |
| ByteOrder.WidthsSpellLowFirst | crates/effects/src/dsl.rs:1004-1013 | every width hashed is spelled low byte first, and so reads back as itself |
| ByteOrder.DigestsLendTheirLead | crates/effects/src/dsl.rs:1020-1026 | a drawn number is the first eight bytes of the digest, read low byte first |
| Calls.IssuedClassTellsMovement | crates/effects/src/dsl.rs:1993-2004 | an issued resource's address is of the restricted class exactly where its declaration grants a movement-restricting behaviour, and grants that do not resolve issue nothing |
| Views.ClausesKeepSound | crates/effects/src/dsl.rs:1529-1654 | every clause, however nested, keeps the counters an exact account of accesses, conditions, proofs and iterations, the caps held, and the set the fold of the accesses |
| Firings.ClausesFire | crates/effects/src/dsl.rs:1529-1654 | a clause, however nested, declares exactly the accesses, conditions and claims its firings make, in their order, each access under its own line's number, and the walk resumes past all its lines whatever guards fired and however many elements loops mapped |
| Views.ContributionOf | crates/effects/src/dsl.rs:1499-1512 | an access clause declares the one access of its own line exactly where its guard holds, a loop only what its body's lines make over the elements mapped, anything else none |
| Views.BodiesLand | crates/effects/src/dsl.rs:1483-1512 | in one pass a body line lands exactly where it is an access whose guard holds over that element, at the access it makes there, and every access of the pass is pointed at unless a nested loop made it over that element |
| Views.LoopsLand | crates/effects/src/dsl.rs:1684-1697 | over all elements, an entry is there exactly where the line's guard holds over the element, points at the access it makes over it, past every earlier element's, and every access of the loop is one element's |
| Alignment.TopClausesAdd | crates/effects/src/dsl.rs:1330-1362 | what one top-level clause adds to every view at once |
| Alignment.DeclarationsAlign | crates/effects/src/dsl.rs:1330-1362 | every declaration that evaluates has one span and one verdict a clause, spans end to end over the whole order, each span exactly what its clause's firings make, one access for a taken access clause and none for a guarded-out one, and rows for exactly the loops: one a body line, all as long as the element count, an entry present exactly where that line is an access whose guard holds over that element, in the loop's span, at the access it makes there, past the element before's |
| Firings.DeclarationsAreTheirFirings | crates/effects/src/dsl.rs:1330-1362 | a declaration that evaluates holds every access, condition and claim its firings make and no others, in the order of the walk, and no instance is proven without its badge |
| Declarations.VerdictsAreGuards | crates/effects/src/dsl.rs:1550-1556 | a top-level clause is taken exactly where it has no guard or its guard's expression answers true |
| Declarations.FiringsAreReached | crates/effects/src/dsl.rs:1529-1654 | a line fires, over a path of elements, exactly where it and every loop around it have guards that answer true there and each loop's list answers a list holding its element |
| Declarations.FiringsTell | crates/effects/src/dsl.rs:1573-1647 | a firing makes exactly the access, condition or claims its own expressions tell, under its own line's number and as wide as its slot |
| Declarations.DeclarationsTell | crates/effects/src/dsl.rs:1330-1362 | a declaration that evaluates is, in order, exactly what the lines reached tell |
| Alignment.AccessesAreListed | crates/effects/src/explain.rs:1174-1258 | every access is what one line of the listing makes over the path of elements the loops around it mapped, and carries that line's number |
| Alignment.AccessesCarryTheirLine | crates/effects/src/explain.rs:707-733 | the number on a top-level access is the line a binding of its clause names |
| Alignment.ElementsCarryTheirLine | crates/effects/src/explain.rs:707-733 | the number on an element's access is the line a binding of its clause and site names |
| Numbering.PreorderLenCountsLines | crates/effects/src/dsl.rs:1712-1720 | the saturating count is the number of lines, stopped at the top of its width |
| Numbering.WalkClause | crates/effects/src/dsl.rs:782-791 | the stack walk yields the recursive preorder |
| Numbering.ListBody | crates/effects/src/explain.rs:1174-1258 | a listing numbers the preorder's lines consecutively, each once |
| Numbering.NameLine | crates/effects/src/explain.rs:707-733 | the running count is the position, in the preorder, of the clause or body line named, and nothing where the coordinate is not held |
| Numbering.LinesNamedAreTheirs | crates/effects/src/explain.rs:707-733 | the line a binding names is the clause it means |
| Numbering.SitesOfPlainClauses | crates/effects/src/explain.rs:715-717 | a site on a clause that is no loop names a line exactly where it is zero, and then the clause's own |
| Shapes.CommittingNothingOnlyReads | crates/effects/src/signature.rs:513-525 | a method that commits nothing evaluates to reads alone on every call |
| Shapes.CommittingNothingIsReading | crates/effects/src/signature.rs:513-525 | a method commits nothing exactly where it gives, issues and destroys nothing and every access it declares, at any nesting, is a read |
| Shapes.JudgeReservation | crates/effects/src/signature.rs:483-502 | the counting walk decides exactly whether every moving line is an unreached reserve and there is one of them |
| Shapes.ReservationsAreOneLine | crates/effects/src/signature.rs:483-502 | the shape is exactly one output, nothing issued or destroyed, and one line that reserves under nobody's reach while every other access reads |
| Shapes.ReservationsOnlyReserve | crates/effects/src/signature.rs:483-502 | every movement such a method evaluates to is an unreached reserve, and all of them come from one line |
| Shapes.DepositsCreditTheVault | crates/effects/src/signature.rs:541-562 | a vault deposit of any bucket evaluates, for nineteen units, to exactly one inbound delta of the bucket's resource at the instance's vault cell for it |
| Envelope.EvaluateAll | crates/effects/src/dsl.rs:1374-1396 | a run of evaluations on one shared meter all succeed if and only if each succeeds alone and their work sums to at most 2,097,152, and the meter then holds the sum |
| Envelope.AdmissionIgnoresOrder | crates/effects/src/dsl.rs:1374-1396 | any order of the same evaluations is accepted or refused alike |
| Rules.CollectLeaves | crates/effects/src/rule.rs:595-612 | the stack walk yields the leaves in preorder |
| Rules.SatisfactionIsMonotone | crates/effects/src/rule.rs:647-663 | presenting more never unsatisfies a rule |
| Rules.ThresholdsChoose | crates/effects/src/rule.rs:647-658 | a count of k is satisfied exactly where there are k places among the branches, each of them satisfied |
| Rules.SatisfactionIsMeeting | crates/effects/src/rule.rs:647-658 | at every nesting, satisfaction is each threshold met by as many distinct places as it counts |
| Rules.AnyKClaimsSuffice | crates/effects/src/rule.rs:647-658 | a k-of-n rule over distinct claims is satisfied exactly where at least k of them are presented |
| Rules.RulesAskAndCanBeMet | crates/effects/src/rule.rs:508-563 | a rule within caps that is no constant is refused by nothing presented and met by presenting its own leaves |
| Rules.ConstantsHaveOneSpelling | crates/effects/src/rule.rs:549-563 | within caps, a rule everyone satisfies is the one spelling of it, and so is a rule no one does |
| Rules.JudgeRule | crates/effects/src/rule.rs:440-455 | the two-flag walk places a rule by the set of its leaves' stages alone |
| Rules.JudgmentIsEarliest | crates/effects/src/rule.rs:440-455 | authored or evaluated, a rule is judged at a stage that holds the answer to every leaf, and no earlier stage does |
| Rules.RulesTurnOnTheirLeaves | crates/effects/src/rule.rs:508-563 | whatever its leaves ask, a rule within caps that is no constant is met where all of them hold and not where none does |
| Rules.TwinsAreJudgedTogether | crates/effects/src/rule.rs:440-455 | two rules whose leaves agree stage for stage are placed together, whatever the leaves are |
| Rules.MappingKeepsStages | crates/effects/src/rule.rs:616-627 | a leaf mapping that keeps each leaf's stage keeps the whole tree of stages |
| StoredRules.DecodedIsWithinCaps | crates/effects/src/rule.rs:69-83 | decoding under the nesting cap, each node judged as it is read, admits exactly the rules within the caps that hold no claim of one instance at the last level |
| StoredRules.DeepInstancesDoNotDecode | crates/effects/src/rule.rs:69-83 | a rule within the caps whose bytes do not decode: three thresholds over a claim of one instance |
| StoredRules.RulesFitAValue | crates/effects/src/rule.rs:55-67 | every rule within the caps fits the bytes a value carries |
| StoredRules.WrittenIsReadBack | crates/effects/src/rule.rs:689-701 | within the caps, a rule is written, is read back and holds no claim of one instance at the last level all together or not at all |
| Grants.SubtractedEntriesAreMet | crates/effects/src/resource.rs:309-330 | an entry is subtracted exactly where it is about anything but moving, asks for claims alone, and the frame's own claim beside any evidence whatever satisfies it; and otherwise it is demanded whole |
| Grants.GrantTable.Set | crates/effects/src/resource.rs:475-483 | the in-place insertion leaves the ordered set with that entry granted or replaced |
| Grants.ResolveInto | crates/effects/src/resource.rs:590-623 | filling the set in a loop resolves it, refused at the first entry that is |
| Holders.SubjectsSealFaithfully | crates/effects/src/resource.rs:730-795 | each granted subject, sealed, is met by exactly the parties that hold or present what it names: a balance, any instance, one instance, either shape where configuration does not say, or a claim |
| Holders.RulesSealFaithfully | crates/effects/src/resource.rs:662-728 | a sealed rule is met by exactly the parties that meet the rule declared |
| Holders.SetsSealFaithfully | crates/effects/src/resource.rs:590-623 | every entry of a resolved set is met by exactly the parties that meet the last rule declared for its behaviour |
| Holders.AbsenceIsTheDefault | crates/effects/src/resource.rs:351-362 | no entry lets anybody move and nobody make, destroy, halt or recall; a rule within caps is refused as restating that exactly where everybody meets it as they meet no entry, and refused as the wrong question exactly where an actor is asked about a holding |
| Calls.BadgesNamedAreIssued | crates/effects/src/resource.rs:814-830 | a badge a granted rule names is the badge its issuer issues under that mark, kind and rules |
| Calls.ResourcesAreTheirParts | crates/effects/src/types.rs:352-372 | an issued address is the hash of parts that tell issuer, kind, rules and material apart |
| Grants.ResolvedSetsAreUsable | crates/effects/src/resource.rs:572-623 | a resolved set is strictly ascending, holds exactly the declared behaviours, and every entry's bytes decode under the codec's nesting cap, ask what the behaviour may ask and restate no absence |
| Grants.WrongQuestionsNeverArise | crates/effects/src/resource.rs:590-623 | resolution never refuses a set for asking the wrong question, however badges nest: an actor question seals claims and nothing else |
| Grants.ClassFollowsTheDeclaration | crates/effects/src/resource.rs:453-467 | the address class is restricted exactly where withdrawing, depositing or halting was declared |
| Grants.BadgeChainIsOneLink | crates/effects/src/resource.rs:814-830 | a set that resolves folds at most one badge beneath it |
| Grants.SealingKeepsTheCaps | crates/effects/src/resource.rs:730-795 | a rule declared within the caps seals within them if and only if its doubled leaves fit the leaf budget and none of them sits at the last level |
| Grants.EntriesSealExactly | crates/effects/src/resource.rs:599-621 | an entry declared within the caps that resolves and is admitted is sealed if and only if its doubled leaves fit, none of them sits at the last level, and no leaf sealing to a claim of one instance does; the refusal is then the caps' |
| Grants.ActorRulesSealAtTheirOwnSize | crates/effects/src/resource.rs:662-728 | an actor question never grows a rule |
| Printer.ReadsBack | crates/effects/src/explain.rs:1376-1513 | printing then parsing is the identity at every binding strength, in front of anything that does not join on |
| Printer.RenderingsAreUnambiguous | crates/effects/src/explain.rs:824-835 | a whole rendering parses to the tree it came from, and two trees render alike only where they are one |
| Printer.NothingParsesShorter | crates/effects/src/explain.rs:1376-1383 | no shorter run of words parses to the same tree, so every parenthesis printed is needed |
| Exports.NameExports | crates/effects/src/explain.rs:1136-1170 | the one-pass line is the compressed form of the parameters declared, stands for exactly them, in order, each handle by its listed line, and says once only runs of three or more |
| Exports.MaximalRunsAreSaidOnce | crates/effects/src/explain.rs:1136-1170 | every run of three or more, taken as far as it goes on both sides, is one entry of the line, wherever it stands |
| Exports.Flush | crates/effects/src/explain.rs:1141-1151 | a flushed run is one entry from three lines up, and stands for the lines it held |
| Artifact.WriteUleb128 | crates/effects/src/artifact.rs:223-234 | the loop writes the length's seven-bit groups, low first |
| Artifact.ReadUleb128 | crates/effects/src/artifact.rs:238-261 | the loop reads what the recursive reading reads, cursor and refusals included |
| Artifact.LengthsRoundTrip | crates/effects/src/artifact.rs:223-261 | a length written at any offset is read back exactly where it fits thirty-two bits, and refused otherwise |
| Artifact.LengthsAreShort | crates/effects/src/artifact.rs:223-234 | such a length takes at most five bytes |
| Artifact.MetadataSection | crates/effects/src/artifact.rs:190-221 | the cursor walk over sections finds what the recursive walk finds, refusals included |
| Artifact.WalksGoOn | crates/effects/src/artifact.rs:190-221 | a walk that succeeds goes on, unchanged, into whatever is appended |
| Artifact.ModulesAnswerTheirMetadata | crates/effects/src/artifact.rs:190-221 | a module of any well-framed sections, in any order, answers its one metadata payload, nothing where it has none, and a duplicate where it has more |
| Artifact.AttachMetadata | crates/effects/src/artifact.rs:145-165 | attaching appends one framed section, and is refused on a malformed artifact, an attached one or an unencodable payload, in that order |
| Artifact.AttachedIsFound | crates/effects/src/artifact.rs:145-221 | the artifact stays an unchanged prefix, the walk finds exactly the payload if and only if the section's content fits thirty-two bits, and a second section is refused |
| Identity.HashGraph | crates/effects/src/graph.rs:333-351 | the loop pushing parts and node hashes computes the graph's hash |
| Identity.HashIntentOver | crates/effects/src/intent.rs:343-386 | the loops pushing counted sections compute the intent's hash over its members' hashes |
| Identity.HashIntent | crates/effects/src/intent.rs:326-334 | the whole tree is hashed from its leaves up |
| Identity.GraphsTellApart | crates/effects/src/graph.rs:333-351 | under a collision-free hash, two graphs hash alike only where they are one |
| Identity.PreimagesTellApart | crates/effects/src/intent.rs:343-386 | the counts make the preimage read one way: equal part sequences agree on every field, every wiring and every member hash |
| Identity.IdentityIsTheDeclaration | crates/effects/src/intent.rs:326-386 | two intents hash alike if and only if they agree on everything, at every depth, but the members' signatures |
| Identity.SignedMembers | crates/effects/src/intent.rs:403-411 | the stack walk yields every member beneath, each before its own members |
| Identity.FramingIsCollisionFree | crates/effects/src/intent.rs:308-313 | framing each part makes the part sequence injective, so a hash with no collision is a hypothesis something meets |
| Cells.KeysAreTheirParts | crates/effects/src/cells.rs:278-326 | a record sits under the producer and an answer under the consumer by how it was answered, at the hash of slot, intent, node and output in that order; an owed crossing credits the consumer's vault |
| Cells.FamiliesAreApart | crates/effects/src/cells.rs:774-802 | no record key is an answer key, and each key tells its owner, its role and its edge |
| Cells.ArmsAreExclusive | crates/effects/src/cells.rs:967-988 | at most one arm reads any leaf, so reading the arms in the other order reads the same |
| Cells.RecordsReadBack | crates/effects/src/cells.rs:967-988 | a leaf reads as a record if and only if it is that cell's bytes at that crossing's record key |
| Cells.AnswersReadBack | crates/effects/src/cells.rs:967-988 | a leaf reads as an answer if and only if it is that answer's bytes at that crossing's key for it |
| Cells.WrittenIsRead | crates/effects/src/cells.rs:813-890 | whatever a crossing writes is read back as that crossing, with its terms' kind or its answer |
| Cells.AnswersAreOnesOwn | crates/effects/src/cells.rs:904-915 | a value at an answer key answers for at most one crossing, transaction, validity end and role |
| Cells.BeingSeenKeepsTheAnswer | crates/effects/src/cells.rs:668-674 | coming to be seen keeps whose answer a cell is |
| Cells.ReadAnswersAreSomebodys | crates/effects/src/cells.rs:880-915 | an answer read off a leaf is somebody's if and only if it is not a take that claims to be unseen |
| Cells.OwedCreditIsTheDeposit | crates/effects/src/cells.rs:809-811 | an owed crossing credits the very cell a deposit at its consumer declares |
| Footprint.CountWeight | crates/effects/src/footprint.rs:84-96 | the counting loop is the weight counted off the lattice |
| Footprint.WeightsFollowTheLattice | crates/effects/src/footprint.rs:245-260 | a write weighs five, a read four, the commutative modes three |
| Footprint.PricesAreExact | crates/effects/src/footprint.rs:108-153 | no price saturates: each is its exact figure, a write weighing five, a read four and a delta or reserve three, and below 2^32 + 768 |
| Footprint.WiderCostsMore | crates/effects/src/footprint.rs:149-153 | a wider interval or a larger cap never costs less |
| Footprint.CuttingNeverSaves | crates/effects/src/footprint.rs:149-175 | cutting a range into adjacent pieces with caps totalling the whole's never lowers its price |
| Footprint.TotalIgnoresOrder | crates/effects/src/footprint.rs:171-175 | the total is the same in any order |
| Footprint.PriceAll | crates/effects/src/footprint.rs:171-175 | the saturating fold is the exact total stopped at the top of its width |
| Footprint.FoldsAreExact | crates/effects/src/footprint.rs:157-175 | over at most 2^31 effects the fold never saturates, and so is the exact sum |
| Routing.ShardsFollowPrefixes | crates/effects/src/route.rs:40-50 | two addresses share a shard at a depth if and only if their top bits agree, no shard serves two depths, and each is half its child's |
| Routing.ShardsDescend | crates/effects/src/route.rs:40-50 | the root shard is one, each further bit of an address descends to that child of its shard, and an address is placed as deep as asked up to 63 |
| Routing.PerShard | crates/effects/src/route.rs:87-97 | the projection meets no fold conflict, files every target under its owner's shard alone, and holds the declared set target for target, reserve totals and widths included |

## Left out

- Admission, the star classifier, the publish checks, the kernel session and the runtimes are not part of this model.
- The cross-shard take, decline and reclaim protocol beyond the keys and values of `cells.rs`.
- The wire codec but for the levels a stored rule descends and the bytes it takes, real hashing and signature checking: function values assumed canonical or collision-free where a result says so.
- Digest truncation: a local key, a fresh key and a collection identity keep their whole digest.
- `EffectSet::insert_bounded`'s answer whether the set moved, and the presence requirements a set can also hold; a target's one reserve is kept apart from its other modes.
- `Capped` list widths other than the ones a result turns on (sixty-four ids an edge, counts that fit thirty-two bits).
- Indices past what a machine word can address, and the listing's own counter past thirty-two bits, where the source would stop the program.
- `explain.rs` prose, tables and refusal sentences; in `Printer` every form that is no operator is one opaque word, so a one-field tuple and a grants trailer are words too.
- `Intent::depth`, `IntentTree::intents` and `for_each_signed_member`: the same walk as `signed_members`, or a fold over it.
- `instance.rs`, `records.rs`, `metadata.rs`, `claim.rs`, `vocabulary.rs` and `vectors.rs`: settled by reading one branch, and would add only easy members.
- `crates/cli`, `crates/embed`, `crates/fixtures`, the fuzz targets and the build scripts.
