# Sigbash SDK: a verified model

The SDK signs Bitcoin transactions under a policy. This project models the parts of it whose
correctness is not visible in one function body, and proves what they promise:

- **Field and checksum arithmetic.** `Bits`, `Polynomials`, `TemplateHash`, `Checksum`, `ChecksumVector`: the shift/XOR loops of
  the template-hash commitment against polynomials over GF(2), and the descriptor checksum of BIP 380 against its
  40-bit register, with what the checksum detects.
- **Policies.** `Json`, `PolicyAst`, `PolicyOrder`, `PolicyEquivalence`, `PolicyMeaning`, `PolicyInput`, `SystemPolicy`,
  `PolicyGate`, `PolicyTemplates`, `PolicyPaths`: canonical forms of policy trees as a decision procedure for
  structural equivalence, the boolean meaning they keep, the welded system clause, and the gate over selections.
- **Binary contracts.** `Bytes`, `Records`, `Contracts`, `PolicyEncoding`, `Artifact`, `Approval`, `EventHeader`,
  `Wallet`, `PinAggregate`, `Psbt`: writers and cursor readers, what they round-trip, what they accept, and which records their
  bytes identify.
- **Protocols.** `Scheduler`, `Arkade`, `ArkadeContexts`, `Socket`: state machines over every interleaving of their steps, with
  classes whose methods take exactly those steps.
- **Proof splice.** `Splice`: the cursor loop over finalize payloads and its undoing by plain substring replacement.
- **Literal statements.** `PolicyInputFacts`, `PolicyAstFacts`, `PolicyMeaningFacts`, `PolicyGateFacts`, `PolicyTemplateFacts`,
  `SystemPolicyFacts`, `Layout`, `PolicyLayout`, `RecordLayouts`, `PsbtLayout`, `SchedulerOutcomes`, `SocketOutcomes`,
  `SpliceFacts`: what the functions named above compute, told from the raw input, the bytes or the events alone, so that
  the theorems about them rest on tables, layouts and outcomes that are stated and not only shared.

`Sorting` and `Options` are shared helpers. Where the source updates in place, the method is proved equal to a
function of the old state, and the theorems are about that function: a `Decoder` cursor for the readers,
`ProveWorkerManager`, `SigbashArkadeIdentity`, `SigbashSocket`, `NegationScan` and `PathWalk` for the objects.

## Reading the main results

- `PolicyEquivalence.Equivalent` is the relation generated by four steps anywhere in a tree: permuting the children
  of a commutative operator, merging an AND into an AND or an OR into an OR, dropping a copy under AND, OR, NAND or
  NOR, and each of these backwards. `CanonDecidesEquivalence` says two trees have one canonical form exactly when
  they are so related. The remaining spellings (descriptions, a threshold instead of `k`) are gone once an input is
  read; `PolicyInput.CanonicalizeIsReadThenCanon` ties the one-pass code to reading and then canonicalizing.
- JavaScript objects keep insertion order, which the sort key ignores. `PolicyAst` has trees whose objects are maps;
  `PolicyOrder` has the canonicalizer with insertion order and the source's own key, proves that forgetting the order
  turns one into the other (`OrderIsForgotten`), and carries the results over. `PolicyEncoding.PreimageDecidesEquivalence`
  takes them to the digest: the bytes of two canonicalized inputs are equal exactly when the inputs are equivalent,
  empty parameter objects apart (`PreimageIdentifiesResult` covers those).
- `Canonicalize` is not idempotent on every input: a deprecated `threshold` is promoted to `k` unchecked.
  `PolicyOrder.SecondPassIff` gives the condition on the input, for all inputs; a bad threshold on a node that is
  merged into its parent does no harm, since merging drops it.
- `Scheduler.WorkConservedIff` says which single step can leave a worker idle while a task waits: the answer to a
  task already timed out, whose handler returns before it dispatches, or a restart that finds a task waiting.
  `Scheduler.DestroySettlesAll` says when every promise has been settled once `destroy` has run: exactly if no
  worker ever answered a pending task with a message of a foreign type.
- `SchedulerOutcomes.SettledAsCaused` and `SocketOutcomes.SettledAsCaused` say for every run, from the events alone, which
  promises end with which outcome.
- `PolicyLayout.DecodesExactly`, the `...Is` and `...Decodes` lemmas of `RecordLayouts` and `PsbtLayout.FileIs` say which byte
  strings each decoder accepts and what it makes of them; they are the byte formats, field by field.
- `PolicyGate.GateAndCanon`: canonicalization keeps acceptance, and can only add it by collapsing repeated NOTs.
- `Wallet`, `Approval`, `EventHeader` and `PinAggregate` state exactly where encoder and decoder check different things.

## Where code and documentation differ

- `setArkadeContext` is documented to make later signs block until the context is consumed
  (src/SigbashArkadeIdentity.ts:183-186). The code does not install a lock; `Arkade.LaterSignsDoNotWait`
  gives two runs, and `ArkadeContexts.WhoGetsTheContext` and `WhoPassesTheContextBy` say for every run which sign gets a
  context and which signs pass while it stays armed, told from the calls made.
- `composeEffectivePolicy` is documented to place the system clause first (src/contracts/systemPolicy.ts:119-120).
  The composed AND is sorted, so it is some direct child; `SystemPolicy.ComposeLocksReqkey` states that.
  `SystemFirstIff` says exactly when it is the first, and `OperatorBeforeSystem` names a whole family for which it is not.
- Parameters are copied by assignment, which for the key `__proto__` sets a prototype and stores nothing: such an entry is
  covered by no text or digest (`PolicyOrder.ProtoIsLost`, `PolicyEncoding.ConditionReads`).
- The gate looks condition types up in plain objects: types named like an inherited property (`toString`, `constructor`, ...)
  are refused by a failing lookup even where unknown types are allowed.
- The checksum register is masked to 41 bits where the reference keeps 35 before the shift; `Checksum.WideStepAgrees`
  shows that the low 40 bits are the reference's at every step.
- `destroy()` empties the first queue and not the second; the model keeps the stale entries.
- The operator VETO takes exactly one child in the code and is read as negation by this model; XOR holds when exactly one child does.

## Model

| member | source | states |
|---|---|---|
| `Polynomials.ProductIsConvolution` | src/templatehash.ts:57-63 | bit k of a carry-less product is the XOR over i of bit i of one factor and bit k - i of the other |
| `Polynomials.Residue` | src/templatehash.ts:64-70 | every polynomial has a residue below 2^128 congruent to it modulo x^128+x^7+x^2+x+1 |
| `Polynomials.ResidueUnique` | src/templatehash.ts:64-70 | two congruent polynomials below 2^128 are equal |
| `Polynomials.TimesUnique` | src/templatehash.ts:57-71 | anything below 2^128 congruent to the product is the field product |
| `Polynomials.TimesComm` | src/templatehash.ts:57-71 | field multiplication is commutative |
| `Polynomials.TimesAssoc` | src/templatehash.ts:57-71 | field multiplication is associative |
| `Polynomials.TimesDistributes` | src/templatehash.ts:57-71 | field multiplication distributes over XOR |
| `Polynomials.TimesOne` | src/templatehash.ts:57-71 | 1 is the unit on field elements |
| `TemplateHash.BytesToBigIntLE` | src/templatehash.ts:33-39 | the loop reads the little-endian value of any buffer |
| `TemplateHash.Gf128Mul` | src/templatehash.ts:57-71 | the two loops return the unique field product, below 2^128 |
| `TemplateHash.ReadChunks` | src/templatehash.ts:80-87 | the zero-padded field is cut into its 8-byte words |
| `TemplateHash.Horner` | src/templatehash.ts:88-92 | the backward loop returns the sum of chunk i times gamma^i |
| `TemplateHash.ElemFromField` | src/templatehash.ts:79-93 | a field's element is the polynomial sum of its padded words at gamma |
| `TemplateHash.ShortField` | src/templatehash.ts:79-93 | a field of one to eight bytes is encoded by its own little-endian value, whatever gamma is |
| `TemplateHash.MultiplyFactors` | src/templatehash.ts:148-151 | the loop returns the field product of beta XOR e over all elements |
| `TemplateHash.ProductOfPermutation` | src/templatehash.ts:148-151 | that product does not depend on the order of the factors |
| `TemplateHash.ComputeTemplateHashCommitment` | src/templatehash.ts:133-160 | refuses exactly when a hash is not 32 bytes; otherwise the low half of the result is the product of the six factors, written out from the fields, and the high half is zero |
| `TemplateHash.HalvesRoundTrip` | src/templatehash.ts:153-158 | two little-endian 64-bit halves read back as the field element |
| `Polynomials.ModulusCoefficients` | src/templatehash.ts:52-56 | the modulus has exactly the coefficients x^128, x^7, x^2, x and 1 |
| `TemplateHash.ChunksHoldValue` | src/templatehash.ts:79-87 | the words of a field, put together again, are its little-endian value, at any length |
| `TemplateHash.HashIsCubic` | src/templatehash.ts:79-93 | the element of a 32-byte hash is the cubic in gamma over its four little-endian words |
| `TemplateHash.FactorsAre` | src/templatehash.ts:139-151 | the six factors are beta XOR: version, lock time, both hash elements, 1 or 0 for the annex, input index, integers modulo 2^32 |
| `TemplateHash.FactorsIdentify` | src/templatehash.ts:139-151 | two transactions have equal factors exactly when versions, lock times and indices agree modulo 2^32, the annex flags agree and the hash elements agree |
| `TemplateHash.CommitmentIs` | src/templatehash.ts:148-151 | the product is the field product of those six factors, written out |
| `TemplateHash.PackCommitment` | src/templatehash.ts:153-159 | the low sixteen bytes hold the product, the others are zero |
| `Checksum.ResidueOne` | src/wallet/canonicalText.ts:67-75 | from any register, exactly the emitted eight symbols lead to residue 1 |
| `Checksum.TextResidue` | src/wallet/canonicalText.ts:46-76 | text symbols followed by eight symbols leave residue 1 if and only if those are the checksum |
| `Checksum.PolymodInjective` | src/wallet/canonicalText.ts:34-43 | different registers stay different under every further input |
| `Checksum.BurstDetected` | src/wallet/canonicalText.ts:34-43 | any change within eight consecutive symbols changes the final register |
| `Checksum.SubstitutionDetected` | src/wallet/canonicalText.ts:46-76 | texts of one length that differ only within two aligned groups of three get different checksum characters |
| `Checksum.ExpandInjective` | src/wallet/canonicalText.ts:50-66 | the expansion of positions into symbols in groups of three is injective |
| `Checksum.SymbolsInjective` | src/wallet/canonicalText.ts:50-66 | different texts over the charset have different symbol sequences |
| `Checksum.WideStepAgrees` | src/wallet/canonicalText.ts:29-43 | the wide register stays below 2^46 and its low 40 bits step as the BIP 380 register does |
| `Checksum.DescPolymod` | src/wallet/canonicalText.ts:34-43 | the feedback loop computes one step of the wide register |
| `Checksum.AbsorbChar` | src/wallet/canonicalText.ts:51-62 | one turn of the loop keeps register, class and open group those of the text read so far |
| `Checksum.AbsorbText` | src/wallet/canonicalText.ts:47-66 | accepts exactly texts over the charset, with the low 40 bits those of the reference register over the text's symbols |
| `Checksum.Flush` | src/wallet/canonicalText.ts:67-70 | eight zero symbols and the final XOR, as the reference register has them |
| `Checksum.EmitDigits` | src/wallet/canonicalText.ts:71-75 | the eight 5-bit groups of the register are the checksum symbols, rendered in order |
| `Checksum.DescriptorChecksum` | src/wallet/canonicalText.ts:46-76 | refuses exactly texts outside the charset; otherwise the eight characters are the checksum text, whose symbols bring the register to 1 |
| `Checksum.PositionOf` | src/wallet/canonicalText.ts:51-54 | the position of a character is the first place at which the character list holds it, and -1 exactly outside the list |
| `Checksum.SymbolsFromPlaces` | src/wallet/canonicalText.ts:50-66 | the symbols of a text, told from the places of its characters: groups of three and what is left over |
| `ChecksumVector.StepValue` | src/wallet/canonicalText.ts:29-43 | a step of the register is the step on eight five-bit digits with the feedback masks as numbers |
| `ChecksumVector.ChecksumOfExample` | src/wallet/canonicalText.ts:46-76 | the checksum of `raw(deadbeef)` is `89f8spxm`, the example of BIP 380 |
| `Json.RenderInjective` | src/contracts/policyAst.ts:99-122 | the printing half of `canonicalJson`: once the entries stand in an order, the text can be read back in one way only |
| `Json.CanonicalTextDecidesValue` | src/contracts/policyAst.ts:96-125 | two values have one canonical text exactly when they are equal with objects read as maps |
| `Json.NormIdempotent` | src/contracts/policyAst.ts:113-122 | sorting the keys everywhere a second time changes nothing |
| `PolicyAst.CanonFixpoint` | src/contracts/policyAst.ts:218-240 | on trees of maps, the trees that arranging leaves alone are exactly those merged, sorted by text, and without copies where copies do not matter |
| `PolicyAst.CanonIdempotent` | src/contracts/policyAst.ts:218-240 | merging, sorting and removing copies a second time changes nothing; the checks beside them are in `PolicyOrder.SecondPassIff` |
| `PolicyAstFacts.OrderForgotten` | src/contracts/policyAst.ts:62-65 | the nine commutative operators give one canonical form for every order of their children |
| `PolicyAstFacts.OrderKept` | src/contracts/policyAst.ts:230-240 | NOT, IMPLIES, IFF, WEIGHTED_THRESHOLD and VETO keep their children in place |
| `PolicyAstFacts.CopiesForgotten` | src/contracts/policyAst.ts:74-76 | AND, OR, NAND and NOR depend on which children occur, not on how often |
| `PolicyAstFacts.CopiesCounted` | src/contracts/policyAst.ts:67-76 | XOR, MAJORITY, THRESHOLD, EXACTLY and AT_MOST keep each child as often as it occurs |
| `PolicyAstFacts.NestedMerged` | src/contracts/policyAst.ts:219-229 | an AND in an AND and an OR in an OR give way to their children, their weight and parameters gone |
| `PolicyAstFacts.NestedKept` | src/contracts/policyAst.ts:219-229 | every other operator keeps a nested operator as its child |
| `PolicyAstFacts.CanonicalOrder` | src/contracts/policyAst.ts:127-132 | among canonical children those with a weight come first, then operators, then conditions |
| `PolicyAstFacts.Escapes` | src/contracts/policyAst.ts:108-108 | the escapes of JSON texts; all other characters stand for themselves |
| `PolicyAstFacts.Texts` | src/contracts/policyAst.ts:96-124 | the texts of constants, arrays and objects, literally |
| `PolicyAstFacts.ConditionKey` | src/contracts/policyAst.ts:96-132 | the sort key of a condition without weight, written out |
| `PolicyAstFacts.OperatorKey` | src/contracts/policyAst.ts:96-132 | the sort key of an operator without parameters and weight, written out |
| `PolicyAstFacts.WeightedKey` | src/contracts/policyAst.ts:128-132 | a weight stands before the text, behind it a bar |
| `PolicyAstFacts.WeightIsLast` | src/contracts/policyAst.ts:128-132 | the weight is the last entry of the text |
| `PolicyEquivalence.EquivalentCanon` | src/contracts/policyAst.ts:218-257 | every tree is structurally equivalent to its canonical form |
| `PolicyEquivalence.EquivalentSym` | src/contracts/policyAst.ts:58-76 | structural equivalence is symmetric |
| `PolicyEquivalence.EquivalentTrans` | src/contracts/policyAst.ts:58-76 | structural equivalence is transitive |
| `PolicyEquivalence.CanonStep` | src/contracts/policyAst.ts:218-257 | one permutation, merge or dropped copy anywhere in a tree leaves the canonical form alone |
| `PolicyEquivalence.CanonDecidesEquivalence` | src/contracts/policyAst.ts:218-257 | two trees are structurally equivalent exactly when their canonical forms are equal |
| `PolicyMeaning.FlattenKeepsDeciding` | src/contracts/policyAst.ts:219-229 | merging nested ANDs or ORs keeps whether some child decides the value |
| `PolicyMeaning.ArrangeKeepsValue` | src/contracts/policyAst.ts:219-240 | for each of the 14 operators, arranging the children keeps the operator's value |
| `PolicyMeaning.CanonKeepsMeaning` | src/contracts/policyAst.ts:201-257 | the canonical tree has the value of the original under every valuation of the conditions |
| `PolicyMeaning.EquivalentSameMeaning` | src/contracts/policyAst.ts:58-76 | structurally equivalent policies have one value under every valuation |
| `PolicyMeaning.CopyMattersXor` | src/contracts/policyAst.ts:67-73 | XOR over two copies of a true child is false, over one it is true |
| `PolicyMeaning.CopyMattersMajority` | src/contracts/policyAst.ts:67-73 | dropping a copy under MAJORITY changes the value |
| `PolicyMeaning.CopyMattersCounted` | src/contracts/policyAst.ts:67-73 | dropping a copy under THRESHOLD, EXACTLY or AT_MOST changes the value |
| `PolicyMeaningFacts.CountingOperators` | src/contracts/policyAst.ts:62-73 | AND, OR, NAND, NOR, XOR and MAJORITY by how many of the children hold |
| `PolicyMeaningFacts.ThresholdOperators` | src/contracts/policyAst.ts:62-73 | THRESHOLD, EXACTLY and AT_MOST by how many hold against k; without a valid k none is satisfied |
| `PolicyMeaningFacts.PlacedOperators` | src/contracts/policyAst.ts:78-79 | NOT and VETO negate their one child; IMPLIES and IFF by the places of their two |
| `PolicyMeaningFacts.WeightedOperator` | src/contracts/policyAst.ts:160-167 | WEIGHTED_THRESHOLD asks for a weight of at least k, and for a k |
| `PolicyMeaningFacts.WeightsAdd` | src/contracts/policyAst.ts:160-167 | weights of disjoint selections of children add up |
| `PolicyMeaningFacts.OneChildWeighs` | src/contracts/policyAst.ts:160-167 | one child weighs its entry in the list, else its own weight, else nothing |
| `PolicyInput.ReadIsChecked` | src/contracts/policyAst.ts:153-285 | a tree that was read satisfies every check of the canonicalizer except the range of a promoted threshold |
| `PolicyInput.CanonicalizeIsReadThenCanon` | src/contracts/policyAst.ts:201-285 | the one-pass canonicalizer is reading followed by `Canon`, failures included |
| `PolicyInput.CanonicalizeDecidesEquivalence` | src/contracts/policyAst.ts:201-285 | two accepted inputs have one result exactly when they read as structurally equivalent trees |
| `PolicyInput.DeprecatedSpellings` | src/contracts/policyAst.ts:175-198 | a threshold beside or instead of an equal `k`, and any description, give one result |
| `PolicyInput.ReadEmbed` | src/contracts/policyAst.ts:153-199 | a checked tree reads back as itself exactly when every `k` in it is a non-negative safe integer |
| `PolicyInput.CanonIsChecked` | src/contracts/policyAst.ts:201-257 | canonicalization keeps a tree within the checks |
| `PolicyInput.IdempotentIff` | src/contracts/policyAst.ts:181-188 | with objects read as maps, a second pass gives the first result again exactly when every threshold on a node that survives merging is a safe non-negative integer; otherwise it throws |
| `PolicyInputFacts.OperatorAcceptedIff` | src/contracts/policyAst.ts:153-257 | an operator node is accepted exactly when its name is one of the fourteen, its children are accepted and as many as it takes, its parameter entries are a safe `k` no different from the threshold and safe weights, and its weight is safe |
| `PolicyInputFacts.ContradictionRefused` | src/contracts/policyAst.ts:175-180 | a `k` with a different threshold beside it is refused by both canonicalizers |
| `PolicyInputFacts.OperatorComesOut` | src/contracts/policyAst.ts:175-198 | what comes out has the given `k` where there is one, else the threshold, the given weights and weight, under the named operator |
| `PolicyInputFacts.OperatorComesOutSorted` | src/contracts/policyAst.ts:175-198 | the same on trees whose objects are maps |
| `PolicyInputFacts.NamesStandFor` | src/contracts/policyAst.ts:50-56 | each of the fourteen names reads as its operator and no other text does |
| `PolicyInputFacts.OddParameterFields` | src/contracts/policyAst.ts:154-174 | falsy parameter fields are no parameters, scalars and the empty list an empty object, other non-objects are refused |
| `PolicyInputFacts.ConditionAcceptedIff` | src/contracts/policyAst.ts:258-283 | a condition is accepted exactly when its type is not empty, its parameters are an object or missing, and its weight is safe |
| `PolicyOrder.KeyForgets` | src/contracts/policyAst.ts:128-132 | `nodeSortKey` of a node is the text of the node with all entries sorted |
| `PolicyOrder.KeyIdentifies` | src/contracts/policyAst.ts:128-132 | two nodes share a key exactly when they differ in the entry order of their objects at most |
| `PolicyOrder.KeyDecidesMeaning` | src/contracts/policyAst.ts:96-132 | two nodes share a key exactly when they are equal JSON values with objects read as maps |
| `PolicyOrder.ReorderedCopyGoes` | src/contracts/policyAst.ts:230-240 | of two conditions equal up to entry order, AND, OR, NAND and NOR keep the first, in its own order |
| `PolicyOrder.OrderIsForgotten` | src/contracts/policyAst.ts:201-285 | the canonicalizer with insertion order kept and the source's key, read as maps, is the canonicalizer on maps, failures included |
| `PolicyOrder.TextDecidesEquivalence` | src/contracts/policyAst.ts:96-285 | the canonical texts of two results are equal exactly when the inputs read as structurally equivalent trees |
| `PolicyOrder.ResultKeepsMeaning` | src/contracts/policyAst.ts:201-285 | what the canonicalizer returns has the value of what it was given, under every valuation |
| `PolicyOrder.ResultIsCanonical` | src/contracts/policyAst.ts:201-257 | every accepted input comes out merged, sorted by the source's key, and without copies where copies do not matter |
| `PolicyOrder.ProtoIsLost` | src/contracts/policyAst.ts:263-274 | an own `__proto__` parameter is dropped on the way in, and the parameters come out as they went in exactly when there is none |
| `PolicyOrder.FixpointIff` | src/contracts/policyAst.ts:201-285 | a tree goes through unchanged, entry order and all, exactly when it has that shape and every `k` is a non-negative safe integer |
| `PolicyOrder.SecondPassIff` | src/contracts/policyAst.ts:153-285 | a second pass returns the first result to the letter exactly when every threshold on a node that survives merging is a non-negative safe integer, and throws otherwise |
| `PolicyOrder.NegativeThresholdNotIdempotent` | src/contracts/policyAst.ts:181-188 | an input with threshold -1 is accepted once and its result is refused |
| `PolicyPaths.PathsDistinct` | src/contracts/policyAst.ts:338-348 | no two nodes of a tree share an identity path |
| `PolicyPaths.PathResolves` | src/contracts/policyAst.ts:338-348 | the k-th path leads from the root to the k-th node in depth-first order |
| `PolicyPaths.PathWalk.Visit` | src/contracts/policyAst.ts:340-345 | the recursive walk appends exactly the paths of the subtree |
| `PolicyPaths.PolicyNodeIdentityPaths` | src/contracts/policyAst.ts:338-348 | the list is the depth-first paths from `n`, all different |
| `SystemPolicyFacts.PathsBelow` | src/contracts/policyAst.ts:338-348 | over two conditions the paths are `n`, `n.0` and `n.1` |
| `SystemPolicy.FragmentIsSystemAtom` | src/contracts/systemPolicy.ts:74-97 | every fragment handed out passes the system-clause assertion and the canonicalizer's checks |
| `SystemPolicyFacts.FragmentIff` | src/contracts/systemPolicy.ts:74-97 | a clause is handed out exactly for `sigbashwd1:` followed by a positive even number of hexadecimal digits, and is the REQKEY condition with range 512 |
| `SystemPolicyFacts.AtomIff` | src/contracts/systemPolicy.ts:104-116 | a system atom is a REQKEY condition with range 512 and a template text of that prefix |
| `SystemPolicy.CanonNoReqkey` | src/contracts/systemPolicy.ts:140-148 | canonicalization neither adds a REQKEY nor loses the last one |
| `SystemPolicy.ComposeIs` | src/contracts/systemPolicy.ts:127-138 | composition succeeds exactly for a system atom, a user policy without REQKEY and valid `k` values; the result is the canonical AND of both |
| `SystemPolicy.ComposeMeaning` | src/contracts/systemPolicy.ts:127-138 | the effective policy holds exactly when system and user policy hold |
| `SystemPolicy.ComposeLocksReqkey` | src/contracts/systemPolicy.ts:118-138 | the system clause is a direct child of the root AND and the only REQKEY in the tree |
| `SystemPolicy.SystemFirstIff` | src/contracts/systemPolicy.ts:118-138 | the system clause is the first child, as documented, exactly when no conjunct of the canonical user policy has a smaller sort key |
| `SystemPolicy.OperatorBeforeSystem` | src/contracts/systemPolicy.ts:118-138 | beside any user policy that is an operator other than AND, weights absent, the system clause is not the first child |
| `SystemPolicy.ComposeFixpoint` | src/contracts/systemPolicy.ts:127-138 | the effective policy canonicalizes to itself |
| `SystemPolicy.ComposeRespectsEquivalence` | src/contracts/systemPolicy.ts:127-138 | structurally equivalent user policies give one effective policy, exactly when the second has valid `k` values |
| `PolicyGate.NegationScan.VisitCondition` | src/contracts/policyTemplates.ts:905-936 | a condition is checked against, and added to, the families seen so far |
| `PolicyGate.NegationScan.Visit` | src/contracts/policyTemplates.ts:901-963 | the walk threads the families through the tree and stops at the first rejection |
| `PolicyGate.ValidatePolicySelectionAst` | src/contracts/policyTemplates.ts:897-975 | the stateful gate accepts exactly the declaratively acceptable trees; condition types named like an inherited property of the lookup tables are refused |
| `PolicyGate.AcceptsIffAcceptable` | src/contracts/policyTemplates.ts:897-1001 | acceptance is: every node well shaped, at most one NOT, and no positive destination set beside a NOT |
| `PolicyGate.NotCountCanon` | src/contracts/policyTemplates.ts:946-955 | canonicalization never adds a NOT and never removes the last one |
| `PolicyGate.GateAndCanon` | src/contracts/policyTemplates.ts:897-975 | a tree is accepted exactly when its canonical form is and it has at most one NOT |
| `PolicyGate.CanonicalFormGainsAcceptance` | src/contracts/policyTemplates.ts:915-919 | two copies of one blocklist are refused as written and accepted once canonical |
| `PolicyGateFacts.NegationsAreBlocklists` | src/contracts/policyTemplates.ts:976-1001 | under every NOT of an accepted tree stands one destination set with selector ANY, a non-empty address list and a network text |
| `PolicyGateFacts.NegationAcceptedIff` | src/contracts/policyTemplates.ts:938-1001 | a single negated condition is accepted exactly if it is such a destination set |
| `PolicyGateFacts.MixingRefused` | src/contracts/policyTemplates.ts:910-936 | a destination set beside a NOT is refused under every operator |
| `PolicyGateFacts.LeafOkIff` | src/contracts/policyTemplates.ts:901-936 | the condition types that pass, by name, with and without unknown types |
| `PolicyGateFacts.ConditionsAreSelectable` | src/contracts/policyTemplates.ts:897-975 | every condition of an accepted tree is of a selectable type |
| `PolicyGateFacts.ConditionAcceptedIff` | src/contracts/policyTemplates.ts:897-975 | a single condition is accepted exactly if its type is selectable |
| `PolicyTemplates.BlocklistHasShape` | src/contracts/policyTemplates.ts:369-394 | the blocklist builder's condition has the only shape a NOT may stand on |
| `PolicyTemplates.TemplatesPassTheGate` | src/contracts/policyTemplates.ts:369-480 | whenever a hard template builds, its tree canonicalizes and the gate accepts it without unknown conditions |
| `PolicyTemplates.CreatedIffValid` | src/contracts/policyTemplates.ts:1021-1084 | a selection validates exactly when it is the one that creation makes from its parameters |
| `PolicyTemplateFacts.DestinationTemplates` | src/contracts/policyTemplates.ts:265-394 | allowlist and blocklist build exactly from distinct address texts and a network, as an ALL selector or a negated ANY |
| `PolicyTemplateFacts.FeeTemplate` | src/contracts/policyTemplates.ts:396-408 | the fee ceiling takes 1 to 2100000000000000 satoshis and bounds the fee from above |
| `PolicyTemplateFacts.ConsolidationTemplate` | src/contracts/policyTemplates.ts:468-477 | the consolidation template takes no parameters |
| `PolicyTemplateFacts.AfterTemplate` | src/contracts/policyTemplates.ts:410-421 | `after` asks for a start and passes it on |
| `PolicyTemplateFacts.WithinTemplate` | src/contracts/policyTemplates.ts:422-448 | `within` builds exactly from a window in order and passes it on, its days sorted and once each |
| `PolicyTemplateFacts.WithinNeedsWindow` | src/contracts/policyTemplates.ts:422-448 | whatever `within` builds from is such a window |
| `PolicyTemplateFacts.OtherModesRefused` | src/contracts/policyTemplates.ts:413-449 | every other mode is refused |
| `PolicyTemplateFacts.DaysInOrder` | src/contracts/policyTemplates.ts:291-303 | the days come out ascending, each that was given and no other |
| `PolicyTemplateFacts.VelocityTemplate` | src/contracts/policyTemplates.ts:328-466 | the velocity takes 1 to 100000 uses, an interval and a known way to reset |
| `SystemPolicyFacts.CreatedRecord` | src/contracts/policyTemplates.ts:1021-1050 | a created record carries both versions 1, its template and parameters, and the digest of the tree built from them |
| `Bytes.LeReadWrite` | src/contracts/authorizationSubject.ts:212-226 | a little-endian number that fits its width reads back |
| `Bytes.LeWriteRead` | src/authorization/psbt.ts:115-130 | every byte string is the writing of what it reads as |
| `Bytes.BeReadWrite` | src/contracts/encoding.ts:25-58 | a big-endian number that fits its width reads back |
| `Bytes.DelimitedReads` | src/contracts/encoding.ts:72-77 | a length-delimited field reads back wherever it stands, and the cursor stops behind it |
| `Layout.WritersAre` | src/contracts/encoding.ts:25-77 | the fixed-width writers refuse exactly what does not fit and write the bytes most significant first; a delimited field is its length in four bytes and its bytes |
| `Layout.LittleWritersAre` | src/contracts/authorizationArtifact.ts:74-103 | the little-endian writers, byte by byte |
| `Layout.WordExact` | src/contracts/encoding.ts:150-153 | a 32-bit read succeeds exactly where the four bytes of its value stand |
| `Layout.LongExact` | src/contracts/encoding.ts:155-158 | a 64-bit read succeeds exactly where the eight bytes of its value stand |
| `Layout.PrefixedExact` | src/contracts/encoding.ts:160-163 | a delimited read succeeds exactly where length and bytes stand |
| `Bytes.ManyReads` | src/contracts/policyEncoding.ts:178-188 | a counted list of items each read back reads back as a whole |
| `Bytes.Decoder.ReadBytes` | src/contracts/encoding.ts:132-139 | the next n bytes and the cursor behind them, or truncated and the cursor unmoved |
| `Bytes.Decoder.ReadBe` | src/contracts/encoding.ts:141-158 | the fixed-width big-endian readers at the cursor |
| `Bytes.Decoder.ReadLe` | src/contracts/authorizationArtifact.ts:186-198 | the fixed-width little-endian readers at the cursor |
| `Bytes.Decoder.ReadDelimited` | src/contracts/encoding.ts:160-163 | the length-delimited reader at the cursor |
| `PolicyEncoding.CanonicalPlatformFaithful` | src/contracts/policyEncoding.ts:144-146 | canonical JSON text under the JSON tag can be parsed back to the value |
| `PolicyEncoding.ReadHead` | src/contracts/policyEncoding.ts:152-160 | kind, flags and weight at the cursor; unknown flags refused |
| `PolicyEncoding.ReadWeights` | src/contracts/policyEncoding.ts:177-182 | the counted weight loop at the cursor |
| `PolicyEncoding.ReadOperatorParams` | src/contracts/policyEncoding.ts:169-182 | both optional operator parameters at the cursor; unknown flags refused |
| `PolicyEncoding.ReadValue` | src/contracts/policyEncoding.ts:199-224 | the four tagged value forms at the cursor, and each refusal |
| `PolicyEncoding.ReadFields` | src/contracts/policyEncoding.ts:195-226 | the parameter loop at the cursor; a repeated key is assigned over, and assigning to `__proto__` stores nothing |
| `PolicyEncoding.DecodeCondition` | src/contracts/policyEncoding.ts:190-227 | a condition body at the cursor |
| `PolicyEncoding.ConditionReads` | src/contracts/policyEncoding.ts:127-227 | an encoded condition decodes to itself without an own `__proto__` parameter |
| `PolicyEncoding.DecodeChildren` | src/contracts/policyEncoding.ts:187-188 | the recursive child loop at the cursor |
| `PolicyEncoding.NodeAt` | src/contracts/policyEncoding.ts:151-233 | a node that is read consumes at least two bytes and stays in the buffer, so decoding ends |
| `PolicyEncoding.DecodeNode` | src/contracts/policyEncoding.ts:151-233 | the cursor-driven decoder computes the node that stands at the cursor |
| `PolicyEncoding.DecodeCanonicalPolicyAstV1` | src/contracts/policyEncoding.ts:255-261 | header, node and exhaustion over a whole document |
| `PolicyLayout.DecodesExactly` | src/contracts/policyEncoding.ts:151-261 | the decoder accepts exactly the byte strings of the documented layout, written out with its tags, flags, widths and limits, and gives the tree they stand for |
| `PolicyLayout.EncodesExactly` | src/contracts/policyEncoding.ts:103-149 | the encoder writes the document of the tree in that layout and refuses exactly a tree with a number or length that does not fit |
| `PolicyLayout.CodesInOrder` | src/contracts/policyEncoding.ts:77-92 | the operator codes are 1 to 14 in the order of the table |
| `PolicyLayout.CodeInverse` | src/contracts/policyEncoding.ts:94-96 | a byte decodes to an operator exactly if it is its code |
| `PolicyLayout.LastAssigned` | src/contracts/policyEncoding.ts:196-226 | of parameters under one key the last gives the value |
| `PolicyLayout.NeverAssigned` | src/contracts/policyEncoding.ts:196-226 | keys that were not read, and `__proto__`, are not in the object |
| `PolicyLayout.DocumentRefused` | src/contracts/policyEncoding.ts:255-261 | an unknown contract or version is called unsupported, trailing bytes malformed |
| `PolicyLayout.NodeRefused` | src/contracts/policyEncoding.ts:152-160 | unknown node flags and kinds are called unsupported |
| `PolicyLayout.OperatorRefused` | src/contracts/policyEncoding.ts:164-186 | unknown operators and parameter flags are called unsupported, no children malformed |
| `PolicyLayout.ValueRefused` | src/contracts/policyEncoding.ts:199-224 | unknown tags are called unsupported; flags above 1, numbers above 2^53 - 1 and texts that are no JSON malformed |
| `PolicyLayout.EmptyTypeRefused` | src/contracts/policyEncoding.ts:191-194 | an empty condition type is refused |
| `PolicyEncoding.NodeReads` | src/contracts/policyEncoding.ts:103-233 | a node's bytes, anywhere and before any suffix, decode to the node (empty parameters absent) with the cursor at the suffix |
| `PolicyEncoding.RoundTripV1` | src/contracts/policyEncoding.ts:240-261 | every document that encodes decodes to its tree and is used up |
| `PolicyEncoding.PrefixFree` | src/contracts/policyEncoding.ts:103-149 | an encoding that begins another is that other, of the same tree |
| `PolicyEncoding.EncodingIdentifies` | src/contracts/policyEncoding.ts:240-278 | the digest preimages of two trees are equal exactly when the trees are, up to an empty parameter object |
| `PolicyEncoding.CanonicalPlatformSorts` | src/contracts/policyEncoding.ts:145-145 | canonical text under the JSON tag does not depend on entry order |
| `PolicyEncoding.EncodingForgetsOrder` | src/contracts/policyEncoding.ts:103-149 | the bytes of a tree do not depend on the order its objects were filled in |
| `PolicyEncoding.PreimageIdentifiesResult` | src/contracts/policyEncoding.ts:240-278 | for all inputs that encode, the bytes are equal exactly when the canonicalized results are, up to entry order and empty parameter objects |
| `PolicyEncoding.PreimageDecidesEquivalence` | src/contracts/policyEncoding.ts:240-278 | from input to digest preimage: for inputs without empty parameter objects the bytes are equal exactly when the inputs read as structurally equivalent trees |
| `PolicyEncoding.EmptyParamsInvisible` | src/contracts/policyEncoding.ts:114-116 | an empty parameter object makes an inequivalent tree with the same bytes |
| `Records.AllWrittenRead` | src/contracts/encoding.ts:127-163 | for every layout, written fields read back wherever they stand |
| `Records.AllReadWrite` | src/contracts/encoding.ts:127-163 | for every layout, fields that were read write the bytes they were read from |
| `Records.DocumentExact` | src/contracts/encoding.ts:165-192 | for every layout, a document reads as given values exactly when they write it |
| `Records.TakeOne` | src/contracts/encoding.ts:132-163 | one field at the cursor, of any shape |
| `Records.TakeAll` | src/contracts/approvalCommitment.ts:148-190 | the fields of a record at the cursor, one after the other |
| `Records.TakeItems` | src/contracts/approvalCommitment.ts:148-190 | the list loops of the decoders at the cursor |
| `Records.TakeRecord` | src/contracts/encoding.ts:165-192 | header, fields and exhaustion over a whole buffer |
| `Artifact.EncodesIffEncodable` | src/contracts/authorizationArtifact.ts:137-167 | the encoder succeeds exactly for records whose fixed values, lengths and integers fit |
| `Artifact.WalkIsInverse` | src/contracts/authorizationArtifact.ts:212-250 | the field walk accepts exactly the encodings and returns what was encoded |
| `Artifact.ReencodeNeverRejects` | src/contracts/authorizationArtifact.ts:250-260 | the comparison after re-encoding never rejects what the walk accepted |
| `Artifact.DecodesExactlyEncodings` | src/contracts/authorizationArtifact.ts:212-260 | the decoder accepts exactly the encoder's image |
| `Artifact.FrontWalkFindsKid` | src/contracts/authorizationArtifact.ts:268-286 | on every accepted input the front walk returns the decoded issuer key id |
| `Artifact.DecodeAuthorizationArtifactV1` | src/contracts/authorizationArtifact.ts:212-260 | the cursor-driven decoder with its re-encoding comparison |
| `Artifact.IssuerKidFromEncoding` | src/contracts/authorizationArtifact.ts:268-286 | the skipping loop reads the field it promises, on every input |
| `RecordLayouts.ArtifactIs` | src/contracts/authorizationArtifact.ts:137-167 | the artifact is written exactly when its hashes are 32 bytes and its texts and counters fit, as its tag, version 1 and the thirteen fields in order |
| `Approval.ApprovalExact` | src/contracts/approvalCommitment.ts:85-197 | bytes and record belong together for the encoder exactly when they do for the decoder and the policy version id is not empty |
| `Approval.PreimageIdentifies` | src/contracts/approvalCommitment.ts:85-127 | different commitments have different preimages |
| `Approval.DecodeApprovalCommitmentV1` | src/contracts/approvalCommitment.ts:142-197 | the cursor-driven decoder over a whole buffer |
| `Approval.DecodesExactly` | src/contracts/approvalCommitment.ts:142-197 | a commitment is decoded from the bytes of its layout and from no others |
| `RecordLayouts.ApprovalIs` | src/contracts/approvalCommitment.ts:85-129 | the commitment is written exactly when every field fits, field by field in this order |
| `RecordLayouts.ApprovalDecodes` | src/contracts/approvalCommitment.ts:142-197 | it is decoded from exactly these bytes; the version id may be empty |
| `EventHeader.EncodesLayout` | src/contracts/syncEnvelope.ts:73-100 | on headers with right lengths the raw concatenation is the record's layout |
| `EventHeader.RoundTripIff` | src/contracts/syncEnvelope.ts:51-135 | an encoded header decodes to itself exactly when its optional ids and hashes have the lengths the decoder reads |
| `EventHeader.PreimageIdentifies` | src/contracts/syncEnvelope.ts:73-100 | headers with right lengths are told apart by their bytes |
| `EventHeader.LengthsMatter` | src/contracts/syncEnvelope.ts:73-100 | with other lengths two headers share their bytes |
| `EventHeader.DecodeEncryptedEventHeaderV1` | src/contracts/syncEnvelope.ts:103-135 | the cursor-driven decoder over a whole buffer |
| `EventHeader.DecodesExactly` | src/contracts/syncEnvelope.ts:103-135 | a header is decoded from the bytes of its layout and from no others |
| `RecordLayouts.HeaderIs` | src/contracts/syncEnvelope.ts:73-101 | the header is written exactly when every checked field fits, field by field in this order |
| `RecordLayouts.HeaderDecodes` | src/contracts/syncEnvelope.ts:103-135 | it is decoded from exactly these bytes, with ids of 16 and hashes of 32 bytes; the event type may be empty |
| `Wallet.WalletExact` | src/contracts/walletDescriptor.ts:85-260 | bytes and wallet belong together for the encoder exactly when they do for the decoder, each side's own checks apart |
| `Wallet.RoundTripIff` | src/contracts/walletDescriptor.ts:113-260 | an encoded wallet decodes to itself exactly when its texts are non-empty and within the decoder's limits |
| `Wallet.PreimageIdentifies` | src/contracts/walletDescriptor.ts:113-160 | readable wallets are told apart by their bytes |
| `Wallet.EmptyTextsDoNotReturn` | src/contracts/walletDescriptor.ts:113-160 | a wallet with empty texts encodes and does not decode |
| `Wallet.DecodeWalletDescriptorV1` | src/contracts/walletDescriptor.ts:202-260 | the cursor-driven decoder over a whole buffer |
| `Wallet.DecodesExactly` | src/contracts/walletDescriptor.ts:202-260 | a wallet is decoded from the bytes of its layout and from no others |
| `RecordLayouts.WalletIs` | src/contracts/walletDescriptor.ts:85-161 | the descriptor is written exactly when it passes the encoder's checks, limits as numbers, field by field in this order |
| `RecordLayouts.WalletDecodes` | src/contracts/walletDescriptor.ts:163-260 | it is decoded from exactly these bytes when it passes the decoder's checks, limits as numbers |
| `PinAggregate.PushPositions` | src/contracts/authorizationSubject.ts:426-428 | the loop pushes each position's challenge and mode, in order |
| `PinAggregate.PushChunks` | src/contracts/authorizationSubject.ts:429-436 | refuses exactly when some chunk pin has a wrong length, else pushes both pins of each |
| `PinAggregate.AuthzPinMessage` | src/contracts/authorizationSubject.ts:418-451 | throws exactly when a checked pin has a wrong length, else the joined parts are the message |
| `PinAggregate.MessageIdentifies` | src/contracts/authorizationSubject.ts:418-451 | with session id and challenges of 32 bytes, two messages are equal exactly when the pins are, up to integers cut to their widths |
| `PinAggregate.ChallengeLengthsMatter` | src/contracts/authorizationSubject.ts:426-428 | with challenges of other lengths, which nothing checks, two lists of positions share one message |
| `RecordLayouts.PinMessageIs` | src/contracts/authorizationSubject.ts:418-451 | the checked lengths as numbers, and the message as its parts in hashing order |
| `Psbt.VarIntInverts` | src/contracts/authorizationSubject.ts:129-153 | the reader inverts `compactSize` for every n up to 2^53 - 1, before any suffix |
| `Psbt.VarIntRefuses` | src/authorization/psbt.ts:102-113 | above 2^53 - 1 the reader refuses what the writer emits |
| `Psbt.CanonicalIffShortest` | src/authorization/psbt.ts:102-113 | what was read took the writer's bytes exactly when it took no more of them |
| `Psbt.LongFormAccepted` | src/authorization/psbt.ts:102-113 | a small length in the long form is accepted |
| `Psbt.TransactionRoundTrip` | src/authorization/psbt.ts:133-160 | parsing inverts the standard serialization for any number of inputs and outputs |
| `Psbt.WritesBackIffShort` | src/authorization/psbt.ts:133-160 | a parsed transaction writes back to its own bytes exactly when both counts and all script lengths are in their shortest form |
| `Psbt.SectionReads` | src/authorization/psbt.ts:167-178 | a written section reads back entry by entry, and the cursor stops behind its separator |
| `Psbt.UnknownKeysSkipped` | src/authorization/psbt.ts:216-248 | entries of other key types leave no trace in an input |
| `Psbt.InputsAreSections` | src/authorization/psbt.ts:215-249 | reading the input maps is splitting off the sections and interpreting each, failures included |
| `Psbt.ParseInterpretsSections` | src/authorization/psbt.ts:191-260 | a file of written sections parses exactly when each input section does, to the transaction and those inputs |
| `Psbt.AcceptedFileIsTiled` | src/authorization/psbt.ts:191-260 | the sections of an accepted file tile it from the magic bytes to its last byte |
| `Psbt.ReadVarInt` | src/authorization/psbt.ts:102-113 | the byte loop reads the compact size at the cursor |
| `Psbt.ReadInput` | src/authorization/psbt.ts:139-144 | one transaction input at the cursor |
| `Psbt.ReadInputs` | src/authorization/psbt.ts:136-145 | the counted input loop at the cursor |
| `Psbt.ParseTransaction` | src/authorization/psbt.ts:133-160 | the cursor-driven transaction parser over a whole buffer |
| `Psbt.ReadSection` | src/authorization/psbt.ts:167-178 | the entry loop at the cursor; it ends since each key takes bytes |
| `Psbt.TakeGlobal` | src/authorization/psbt.ts:197-209 | the loop over the global entries, later entries winning |
| `Psbt.TakeInput` | src/authorization/psbt.ts:217-247 | the loop over an input's entries, later entries winning and leaf scripts collected |
| `Psbt.ParsePsbtBytes` | src/authorization/psbt.ts:191-260 | the whole reader, every slice within the buffer |
| `PsbtLayout.SizeExact` | src/authorization/psbt.ts:102-113 | a compact size is read from its four forms, longer ones for small values included, and from nothing else |
| `PsbtLayout.TxIs` | src/authorization/psbt.ts:133-160 | the serialization that parsing inverts, byte by byte, and which transactions have one |
| `PsbtLayout.MapIs` | src/authorization/psbt.ts:167-178 | the bytes of a map: key and value behind their sizes, then a zero byte |
| `PsbtLayout.GlobalReadsIff` | src/authorization/psbt.ts:199-209 | the global map interprets exactly when each transaction entry has a bare key and parses and each version has four bytes |
| `PsbtLayout.LastGlobalCounts` | src/authorization/psbt.ts:199-209 | of several transactions or versions the last counts |
| `PsbtLayout.InputReadsIff` | src/authorization/psbt.ts:218-247 | an input map interprets exactly when each entry of a known type is in order |
| `PsbtLayout.LastInputCounts` | src/authorization/psbt.ts:218-237 | of the entries of one type the last gives the field |
| `PsbtLayout.AbsentInput` | src/authorization/psbt.ts:216-248 | without an entry of its type a field is absent |
| `PsbtLayout.LeavesCollected` | src/authorization/psbt.ts:238-246 | the leaf scripts are the leaf entries in order: key data, value up to the last byte, last byte |
| `PsbtLayout.WitnessReads` | src/authorization/psbt.ts:221-229 | a witness entry is one serialized output; trailing bytes are refused |
| `PsbtLayout.FileIs` | src/authorization/psbt.ts:191-260 | a file parses exactly if it is the magic bytes, a version 0 map with a transaction, one interpreting map per input and one map per output, to the last byte |
| `Scheduler.Pick` | src/prove-worker-manager.ts:1040-1048 | some idle worker unless all are busy, the first suiting one, and the first of another role only when no idle worker suits |
| `Scheduler.AdvanceKeeps` | src/prove-worker-manager.ts:1013-1022 | one turn of a dispatch loop keeps the invariant |
| `Scheduler.DispatchKeeps` | src/prove-worker-manager.ts:1006-1033 | dispatching keeps the invariant |
| `Scheduler.StepKeeps` | src/prove-worker-manager.ts:125-245 | each step (submission, timeout, reply, late reply, destroy, init) keeps the invariant |
| `Scheduler.RunKeeps` | src/prove-worker-manager.ts:125-245 | every reachable state satisfies the invariant, for every order of steps |
| `Scheduler.DrainTakesFront` | src/prove-worker-manager.ts:1013-1032 | a drain removes a front part of its queue, sends exactly its live tasks in submission order, and ends with the queue empty or no worker idle |
| `Scheduler.DispatchLeavesNoIdle` | src/prove-worker-manager.ts:1006-1033 | after a dispatch both queues are empty or all workers busy, and the second queue is touched only when the first is empty |
| `Scheduler.NeverSentTwice` | src/prove-worker-manager.ts:1013-1032 | over every run ids are sent in submission order from each queue, none twice or from both, and none that still waits |
| `Scheduler.PendingInOnePlace` | src/prove-worker-manager.ts:125-177 | a pending task is in exactly one of the first queue, the second queue and one worker's hands |
| `Scheduler.BusyOwesOne` | src/prove-worker-manager.ts:1020-1064 | a worker is busy exactly while it owes one answer, and owes never two |
| `Scheduler.DroppedIff` | src/prove-worker-manager.ts:1066-1075 | a promise is dropped unsettled exactly if a message of a foreign type met its pending task |
| `Scheduler.DestroySettlesAll` | src/prove-worker-manager.ts:226-245 | no task is settled twice, and after `destroy` all have been settled exactly if no foreign message dropped one |
| `Scheduler.WorkConservedIff` | src/prove-worker-manager.ts:1064-1078 | from a state without idle worker and waiting task a step leads to such a state exactly unless it is one of the stalling steps |
| `Scheduler.LateAnswerStalls` | src/prove-worker-manager.ts:1064-1067 | a concrete run in which a late reply frees the worker and the waiting task keeps waiting |
| `Scheduler.ForeignAnswerHangs` | src/prove-worker-manager.ts:1068-1075 | a concrete run in which a promise is never settled, even by `destroy` |
| `SchedulerOutcomes.SettledAsCaused` | src/prove-worker-manager.ts:1050-1135 | in every run a task is resolved exactly if its worker's result, and failed exactly if its worker's error, came while it was out and pending; timed out exactly if its timer fired while pending; destroyed exactly if a destroy found it pending |
| `SchedulerOutcomes.StepSettles` | src/prove-worker-manager.ts:1050-1135 | which single step settles which task with which outcome |
| `SchedulerOutcomes.TimeoutOnlySettles` | src/prove-worker-manager.ts:136-142 | a timer ends its task and nothing else |
| `SchedulerOutcomes.DestroyLeaves` | src/prove-worker-manager.ts:226-245 | what `destroy` clears and what it leaves, the second queue among it |
| `SchedulerOutcomes.SubmittedWaits` | src/prove-worker-manager.ts:125-177 | with all workers busy a task waits behind its own queue |
| `SchedulerOutcomes.SubmittedGoes` | src/prove-worker-manager.ts:1006-1048 | with nothing waiting a task goes out at once, to the first idle suiting worker or else the first idle one |
| `SchedulerOutcomes.AnsweredServesFront` | src/prove-worker-manager.ts:1051-1079 | the answer of the one worker waited on sends it the front of the first queue |
| `SchedulerOutcomes.FreshPool` | src/prove-worker-manager.ts:1040-1048 | in a fresh pool the unified circuit goes to worker 0 and chunks to worker 1; a single worker takes all |
| `Scheduler.ProveWorkerManager.Start` | src/prove-worker-manager.ts:262-302 | the pool and its roles, as the init step has them |
| `Scheduler.ProveWorkerManager.ProveAsync` | src/prove-worker-manager.ts:125-148 | takes the submission step on the first queue and hands out the next id |
| `Scheduler.ProveWorkerManager.WitnessAndProveAsync` | src/prove-worker-manager.ts:155-177 | takes the submission step on the second queue and hands out the next id |
| `Scheduler.ProveWorkerManager.OnTimeout` | src/prove-worker-manager.ts:136-142 | takes the timeout step |
| `Scheduler.ProveWorkerManager.OnMessage` | src/prove-worker-manager.ts:1051-1079 | takes the reply step, late and foreign replies included |
| `Scheduler.ProveWorkerManager.Destroy` | src/prove-worker-manager.ts:226-245 | takes the destroy step |
| `Scheduler.ProveWorkerManager.RunDispatch` | src/prove-worker-manager.ts:1006-1033 | the two loops compute the dispatch of the specification |
| `Scheduler.ProveWorkerManager.SendFromQueue` | src/prove-worker-manager.ts:1017-1021 | one turn of the first loop |
| `Scheduler.ProveWorkerManager.SendFromWapQueue` | src/prove-worker-manager.ts:1027-1031 | one turn of the second loop |
| `Arkade.OldestRuns` | src/SigbashArkadeIdentity.ts:255-258 | exactly the oldest continuation can run, once its lock is released, and it can whenever no sign is past the lock |
| `Arkade.StepKeeps` | src/SigbashArkadeIdentity.ts:188-321 | each step keeps the invariant |
| `Arkade.RunKeeps` | src/SigbashArkadeIdentity.ts:188-321 | every interleaving keeps the invariant |
| `Arkade.OneSignAtATime` | src/SigbashArkadeIdentity.ts:253-258 | at most one sign is past the lock, and signs pass in the order of their calls, each after its predecessor was done |
| `Arkade.QueueDrains` | src/SigbashArkadeIdentity.ts:319-321 | however signs end, every waiting call gets its turn and the lock ends up free |
| `Arkade.ArmedAfterEarlierSigns` | src/SigbashArkadeIdentity.ts:194-200 | a waiting context can be armed only when the signs called before it are done and none is past the lock |
| `Arkade.EveryArmingWaited` | src/SigbashArkadeIdentity.ts:194-200 | at each arming in every run, all signs called before had finished |
| `Arkade.ContextUsedOnce` | src/SigbashArkadeIdentity.ts:287-300 | a context reaches one signing call at most, never an intent proof, and an armed one has reached none |
| `Arkade.FlagTellsContext` | src/SigbashArkadeIdentity.ts:223-225 | at every await point the pending flag says whether a context is armed, and the counters count signs and intent proofs |
| `Arkade.OnlyConsumersTake` | src/SigbashArkadeIdentity.ts:267-292 | an intent proof leaves context and flag alone; another sign takes the context and clears both |
| `Arkade.LaterSignsDoNotWait` | src/SigbashArkadeIdentity.ts:183-201 | in one run an intent proof called after `setArkadeContext` passes and finishes while the context stays armed; in another the context goes to the first of two later signs, whichever it was meant for |
| `ArkadeContexts.RunPredicted` | src/SigbashArkadeIdentity.ts:188-321 | in every run, signs enter and contexts are armed in the order of the calls, and a register over the calls says what is armed and what each signing call was given |
| `ArkadeContexts.RegisterIs` | src/SigbashArkadeIdentity.ts:188-201 | the register holds a context exactly when it was brought and only intent proofs were called since |
| `ArkadeContexts.WhoGetsTheContext` | src/SigbashArkadeIdentity.ts:183-300 | in every run a sign is passed a context if and only if that context was brought before it, only intent proofs were called in between, it is no intent proof itself, and no clear found the context armed |
| `ArkadeContexts.WhoPassesTheContextBy` | src/SigbashArkadeIdentity.ts:183-292 | in every run a sign passes the lock and leaves a context armed if and only if it is an intent proof called behind that context with only intent proofs between, and no clear found it armed |
| `Arkade.SigbashArkadeIdentity.Sign` | src/SigbashArkadeIdentity.ts:255-258 | up to its await a sign takes the newest lock and installs the next |
| `Arkade.SigbashArkadeIdentity.SetArkadeContext` | src/SigbashArkadeIdentity.ts:188-198 | up to its await the call registers behind the newest lock |
| `Arkade.SigbashArkadeIdentity.ClearArkadeContext` | src/SigbashArkadeIdentity.ts:189-193 | a null context clears context and flag at once |
| `Arkade.SigbashArkadeIdentity.EnterSign` | src/SigbashArkadeIdentity.ts:267-300 | behind the lock a sign takes its step, and what it passes on is the armed context or, for an intent proof, nothing |
| `Arkade.SigbashArkadeIdentity.ArmContext` | src/SigbashArkadeIdentity.ts:199-200 | behind its lock the call arms its context |
| `Arkade.SigbashArkadeIdentity.FinishSign` | src/SigbashArkadeIdentity.ts:319-321 | the lock is released whether signing settled or threw |
| `Arkade.SigbashArkadeIdentity.HasPendingContext` | src/SigbashArkadeIdentity.ts:223-225 | in every state that keeps the invariant the flag returned tells whether a context is armed |
| `Socket.StepKeeps` | src/socket.ts:173-277 | each step keeps lists in emission order and a dispatcher pair exactly on events with pending requests |
| `Socket.RunKeeps` | src/socket.ts:173-277 | every run keeps that |
| `Socket.SettledOnce` | src/socket.ts:181-188 | a settled promise keeps its outcome whatever arrives later |
| `Socket.LateTimerIsSilent` | src/socket.ts:205-207 | the uncancelled timer of a settled request changes nothing |
| `Socket.TaggedSettlesItsRequest` | src/socket.ts:238-259 | a tagged message settles the oldest pending request of its event with that id and leaves the rest, or changes nothing |
| `Socket.TaggedIsExact` | src/socket.ts:238-259 | with distinct ids it settles exactly the request it answers |
| `Socket.UntaggedSettlesOldest` | src/socket.ts:235-248 | an untagged response settles the oldest pending request of its event and nothing else |
| `Socket.UntaggedErrorClears` | src/socket.ts:260-262 | an untagged error settles every pending request of its event, no other, and removes the dispatchers |
| `Socket.TimersEmptyTheRegistry` | src/socket.ts:191-207 | once all timers have fired, after any run, the registry is empty, no dispatcher is left and every request is settled |
| `SocketOutcomes.SettledAsCaused` | src/socket.ts:173-263 | in every run a request completes, is refused or times out exactly if a response, an error or its timer reached it while it was pending, as the oldest of its event or of its id |
| `SocketOutcomes.StepSettles` | src/socket.ts:173-263 | which single step settles which request with which outcome |
| `Socket.SigbashSocket.Send` | src/socket.ts:173-214 | takes the issue step |
| `Socket.SigbashSocket.Attach` | src/socket.ts:232-268 | installs the pair of an event and touches no other |
| `Socket.SigbashSocket.Detach` | src/socket.ts:271-277 | removes the pair of an event and touches no other |
| `Socket.SigbashSocket.RemoveFromPending` | src/socket.ts:191-200 | removes the entry, and an emptied list with its dispatchers |
| `Socket.SigbashSocket.Conclude` | src/socket.ts:181-188 | removes the entry and settles its promise unless it was settled |
| `Socket.SigbashSocket.FindEntry` | src/socket.ts:240-243 | the loop finds the oldest entry with the id, or none |
| `Socket.SigbashSocket.OnResponse` | src/socket.ts:235-248 | takes the response step |
| `Socket.SigbashSocket.OnError` | src/socket.ts:250-263 | takes the error step, the loop over a snapshot included |
| `Socket.SigbashSocket.OnTimer` | src/socket.ts:205-207 | takes the timer step |
| `Splice.KeyInjective` | src/SigbashClient.ts:529-529 | different input indices or occurrences have different keys |
| `Splice.PlaceholdersApart` | src/SigbashClient.ts:531-531 | no placeholder stands inside another |
| `Splice.ScanFinds` | src/SigbashClient.ts:517-534 | every value the loop finds is a quote-free piece of the text with the key of its occurrence, and keys are apart |
| `Splice.ScanGuards` | src/SigbashClient.ts:518-532 | each placeholder stands between the marker's quote and the closing quote |
| `SpliceFacts.ScanCuts` | src/SigbashClient.ts:514-534 | the scan succeeds exactly on texts that cut into pieces at each first marker, the next quote and a value that decodes, with keys numbered from 0, and returns those pieces |
| `SpliceFacts.HoleShows` | src/SigbashClient.ts:531-531 | a value moved out leaves `@@BINPROOF:`, its key and `@@` |
| `SpliceFacts.OneProof` | src/SigbashClient.ts:514-539 | a text with one proof: the spliced text and the attachment, literally |
| `Splice.SpliceText` | src/SigbashClient.ts:514-534 | the cursor loop throws exactly on an unterminated value; otherwise its text is the original with placeholders and its table holds the decoded values |
| `Splice.SpliceFinalizeBinaryProofs` | src/SigbashClient.ts:500-540 | over all inputs, the same, with the payload unchanged when there is nothing to attach |
| `Splice.NothingMoved` | src/SigbashClient.ts:538-538 | when nothing was attached the rewritten inputs are the original ones |
| `Splice.ReplaceFills` | src/SigbashClient.ts:460-540 | replacing one placeholder everywhere fills its own holes and touches nothing else |
| `Splice.RestoreUndoesSplice` | src/SigbashClient.ts:460-540 | replacing every placeholder by the base64 of its attachment, in any order and repeatedly, restores each text |
| `Splice.PrepareFinalizeV2` | src/SigbashClient.ts:575-611 | succeeds exactly for non-empty inputs that satisfy its preconditions; each text is attached as its bytes under its index and nothing else is, and the envelope keeps index and other fields, so that both reassemble to the inputs, an own `__proto__` field apart |
| `Splice.KeptIff` | src/SigbashClient.ts:596-600 | an input comes back unchanged exactly when it has no own `__proto__` field |

## Left out

- Cryptographic primitives (hashes, signatures, key derivation, encryption): theorems stop at the byte string that is hashed; digests of policies are a parameter of `PolicyTemplates`.
- The runtime's text handling: UTF-8 conversion, byte-order marks and replacement characters. Texts in contracts are their UTF-8 bytes, policy texts are character sequences with encoder, decoder and `JSON.parse` as the parameters of `PolicyEncoding.Platform`; the length limits of wallet texts therefore count bytes.
- Rounding of numbers: integers are exact within the stated ranges, and other JSON numbers are carried as their text.
- String order by UTF-16 units: keys are compared character by character, with the same results on texts without surrogates.
- What an assigned `__proto__` entry makes a parameter object inherit: later lookups of other names see own entries only here.
- Object identity and freezing; JavaScript's ordering of integer-like keys before other keys.
- Regular expressions, dates and durations in template parameters: `PolicyTemplates.Formats` holds them as functions.
- Distinct error classes and messages of the decoders where several failures collapse into one.
- Starting workers, the worker scripts, warming circuits, the main-thread fallback, and a `postMessage` that throws: a worker is whatever may answer a task at most once.
- Worker wrappers as shared objects: `Scheduler` keeps them as values in the pool, with a key for identity, so aliasing between pool and listeners is by that key.
- The promise runtime itself: `Arkade` takes continuations of one promise to run in registration order and steps to be uninterrupted between await points.
- Emission failures of the socket, reconnection, and the drawing of correlation ids: `Socket` allows any ids, equal ones included.
- The network methods of the client, the WASM bridge, authentication and credentials: foreign calls.
- `normalisePolicy` and the descriptor guards beside it: per-condition rewrites of parameter names and defaults (a boolean to an EQ comparison, an enum name to a numeric range, a missing selector to ANY) before a policy is compiled.
- `canonicalWalletDescriptorText` beyond the checksum: leaf ordering rests on script hashes.
- The envelope around the event header, the sighash preimages beside `authzPinAggregate`, and the remaining fixed-layout messages: the same framing over again.
- Governance templates, the catalogue invariant and the state-code tables: finite tables.
- Taproot trees, extended-key import, the wallet builder, verification lists and the PSBT adapter: straight-line checks over opaque hashes.
- PolicyMeaning.CanonKeepsMeaning: the source has no evaluator of its own, so IMPLIES and IFF over other than two children, a missing `k` and a missing weight are read by this model's own conventions; the theorem does not depend on which are chosen for operators whose children stay in order.
- PolicyEncoding.RoundTripV1: is about trees whose objects hold their entries sorted; others have the same bytes (`PolicyEncoding.EncodingForgetsOrder`) and come back sorted. A negative zero, which JavaScript can tell from zero, is not represented.
- Splice.RestoreUndoesSplice: needs distinct input indices, canonical base64 values and texts without a placeholder of their own, none of which the splice checks.
