# Capability tokens, audit chains and guards, verified

A Dafny model of the parts of this repository on which its safety claims rest, with proofs of those claims:
delegation chains of capability tokens (issuing, parsing, validating, minting, deciding), canonical JSON and the
hash-chained audit log, four stateful guards (rate limit, credential cache, usage quota, approval envelopes), two
small languages (the connector expression language and the visual policy builder's clauses) and two tree
algorithms (response sanitising and the receipt tree). `dafny verify dfyconfig.toml` checks the whole project.

## How the model is built

- Each source file is a module, or more: one with the data, the operations and, where the source works step by
  step, the methods and classes; others (`...Theorems`, `...Runs`) with the results. A method with a loop or with
  state is proved against a function of its inputs and its old state, and the results are lemmas about that
  function.
- `Common`, `Canonical`, `JsonText`, `Encoding`, `Tokenizer` are shared: string splitting and joining, JSON values
  and their canonical text, a reader of JSON texts (section 7 of RFC 8259 for strings), UTF-8 and base64url
  (section 5 of RFC 4648), tokens of the expression language.
- What policy clauses emit is judged by what Cedar reads, not by what the emitter meant: `CedarText` is a reader of
  Cedar's expression syntax (tokens, strings, precedence) for the operators a clause can hold. What else is reserved
  in Cedar and how a string literal with escapes is read are the parameters `CedarText.Cedar`.
- What an operation does is also said apart from how it is computed, with the constants, keys and texts written out:
  the modules `...Form(s)` say what is written and read, `Reasons` and `AuditReasons` which error is given when,
  `ClassifierTheorems`, `DecideTheorems`, `MintedMetadata`, `ApprovalEffects` and `IntentAnswers` what an answer, a
  token or a row says, `ExpressionMeaning` what an expression means, `ReceiptTreeOrder` which lines stand where.
- Foreign primitives are parameters, not axioms. `Ucan.Crypto` and `Audit.Primitives` carry Unicode normalisation,
  SHA-256, signing, verifying and the DID encoding as functions; what is assumed of them is the predicate
  `Correct()` (signatures verify, DIDs made from keys decode to them, normalisation leaves ASCII alone), and it is
  a hypothesis of the results that need it. SHA-256 is not assumed injective, which no function from texts to
  64 characters is: where the source relies on it, the result says "or these two texts collide" and names them. Likewise no signature is
  assumed unforgeable; the result says "or this bundle's signature is a forgery".
- Results about "every run" are about sequences of steps in which requests, clock readings, ids and administrative
  actions are arbitrary. Each database statement, and each HTTP request, is one step unless said otherwise.

## What was found

Places where the code is not what a comment or an obvious reading says. In each the code is modelled as it is.

- The comment at apps/control-plane/src/services/usage.ts:89-94 says that the cap check and the increment are one
  statement. They are two. With at most N calls in flight a counter stays below cap + N, and `Usage.BoundIsMet`
  shows that cap + N - 1 is reached on every plan and for every N.
- A link of a delegation chain is compared with its immediate parent's own constraint only. So a chain keeps its next
  token from exactly the resources that its last token's own constraint excludes (`ChainTheorems.OutOfReachIff`):
  over stretches where every token carries a constraint containment holds end to end, and every linked chain that
  ends in a token without one goes on to one whose leaf admits every resource (`ChainTheorems.GapUncovers`).
- `constraintCovers` is false for the thirteen providers it does not know, even of a constraint and itself. So a
  token with such a constraint cannot be delegated (`MintRuns.ChildLinkIff` says exactly when it can), and a
  step-up retry with such a constraint never matches its own approval (`Intent.RetryMatches`).
- The comment at apps/control-plane/src/routes/intent.ts:303-305 calls the mutual check of an approved spec
  equality. An intent that names an approved action twice and leaves out another matches too
  (`Intent.DuplicateMatches`); `Intent.MatchIsEquality` says exactly when a match is equality.
- An approval is not checked against the agent that presents its cosigner token, nor marked used by the intent
  request. While the token reads, any dynamic agent of any customer that presents it for the approved intent is granted
  an envelope of its own, any number of times, claimed or not (`Intent.GrantNeverSpent`, `Intent.BorrowedApproval`);
  an envelope is the approved agent's exactly when that agent made the request (`Intent.NewEnvelopeApproved`).
- The proposals that the intent request itself puts up carry no original CID, and no cosigner token is signed without
  one. In every run in which nobody else opens an approval of the envelope command with a CID, no envelope is ever
  created (`Intent.ProposalsLeadNowhere`).
- A revocation is of a text, not of a token. A token whose signature's length is no multiple of three, as that of every
  Ed25519 signature, has a second text with other low bits in its last character (`UcanTheorems.OneTextIff`); a chain
  with that text in place of the revoked one is still allowed (`Decide.TwinStaysAllowed`).
- The receipt tree printer ends exactly when no event with the empty string for an id is its own ancestor
  (`ReceiptTree.EndsIff`), and then prints no event twice exactly unless it reaches an event with the empty id and some
  event has the empty string for its parent (`ReceiptTree.PrintedOnceIff`). With the ids the schema allows it ends and
  prints nothing twice.
- The credential cache joins a connection id and a scope with a bar. Ids that continue one another past a bar share
  entries (`CredsCache.ClashServesOther`); ids without bars never do.
- Attribute names of a recognised clause are emitted as they stand. One that is no Cedar name is read back as something
  else: comparing the attribute `a && principal` of the context with true is emitted as a conjunction
  (`PolicyRoundTrip.OddNameMisread`). An expression comes back from its text exactly when its attributes are names and
  it is no presence test on a path of three or more parts (`PolicyRoundTrip.Reemission`).
- Re-emitting such a presence test turns an error on a missing intermediate attribute into `false`, which an `unless`
  condition reads the other way; `PolicyRoundTrip.MeaningKept` says in exactly which worlds the meaning is kept.
- Hashing rules are the one kind of sanitising rule that is not idempotent (`Sanitize.MaskTwiceIff`).
- The expression language describes `default(a, b)` as an alias of `coalesce(a, b)`. Of two blank arguments it returns
  the second, where `coalesce` returns null (`Expression.DefaultVsCoalesce`).
- The function table of the expression language is an object, so a call of an inherited name (`toString()`) evaluates
  where the comment at packages/adapters/src/transforms.ts:21 says that it throws; `Expression.ElseThrowsIff` says when
  a name off the whitelist throws (`Expression.InheritedCalled`).
- The verifier does not check the form of the first previous hash. Events up to a verified root are the log's all the
  same, unless the bundle spells out the genesis secret (`AuditTheorems.VerifiedEventsAreHonest`).
- A token bucket with room for less than one token admits the one call that creates it and none after
  (`RateLimit.SmallBurstAdmitsOnce`); the rate bound is stated to include that case.
- `constraintCovers` compares an Azure tenant and `constraintMatchesResource` does not: `Constraint.AzureContainsIff`
  states both relations.

## Model

| member | source | states |
|---|---|---|
| `Canonical.CollectPairs` | packages/ucan/src/canonical.ts:26-41 | the key loop keeps, in order, the first entry of each normalised key whose value is not undefined |
| `Canonical.SortedPairsSpec` | packages/ucan/src/canonical.ts:26-43 | the printed entries are strictly sorted, have exactly the defined normalised keys, and each has the value of the first entry with that key |
| `CanonicalForm.LessIff` | packages/ucan/src/canonical.ts:42 | the comparison of the sort is the lexicographic order of the characters, a proper prefix first: at the first place where two keys differ one ends or has the smaller character |
| `CanonicalForm.PrintedEntries` | packages/ucan/src/canonical.ts:26-43 | the printed entries are exactly those no earlier defined entry has the normalised key of, by ascending key in that order |
| `CanonicalForm.ObjectText` | packages/ucan/src/canonical.ts:22-43 | the text of an object is, in braces and between commas, the text of those entries in that order, each its key as a literal, a colon and the text of its value |
| `CanonicalTheorems.CanonicalizeSucceeds` | packages/ucan/src/canonical.ts:8-46 | printing succeeds exactly on values that stand for JSON data |
| `CanonicalTheorems.CanonicalReads` | packages/ucan/src/canonical.ts:8-46 | canonical text followed by any delimiter is read back as the data it stands for, taking exactly that text |
| `CanonicalTheorems.ParseCanonical` | packages/ucan/src/canonical.ts:8-46 | parsing canonical text returns the value's meaning: keys normalised, first key wins, undefined dropped |
| `CanonicalTheorems.SameMeaningSameText` | packages/ucan/src/canonical.ts:8-46 | values that mean the same, whatever the key order, print the same |
| `CanonicalTheorems.CanonicalUnambiguous` | packages/ucan/src/canonical.ts:8-46 | two printable values have the same canonical text if and only if they mean the same |
| `CanonicalTheorems.CanonicalPrefixFree` | packages/ucan/src/canonical.ts:8-46 | no canonical text, followed by a delimiter, starts another one's: nested texts are uniquely decodable |
| `CanonicalForm.CanonicalShortest` | packages/ucan/src/canonical.ts:8-46 | canonical text is a shortest of all JSON texts of its data: no blanks, no longer escapes, no spare digits |
| `CanonicalForm.PrintFails` | packages/ucan/src/canonical.ts:9-45 | which error printing fails with, of nested values that of the first that fails |
| `CanonicalForm.EscapesSmall` | packages/ucan/src/canonical.ts:17-19 | the hex digits of an escape are in small letters |
| `Encoding.Utf8RoundTrip` | packages/ucan/src/issue.ts:35-38 | the bytes of a text decode to the text |
| `Encoding.Base64urlRoundTrip` | packages/ucan/src/issue.ts:35-42 | base64url text decodes to the bytes it encodes |
| `Encoding.Base64urlDotFree` | packages/ucan/src/parse.ts:13-15 | encoded parts hold no dot, so a token splits into its own three parts |
| `Encoding.EncodeTextRoundTrip` | packages/ucan/src/issue.ts:35-38 | a header or payload part decodes to its canonical text |
| `Encoding.TwinIff` | packages/ucan/src/base64url.ts:5-7 | bytes have a second base64url text exactly when their number is no multiple of three |
| `EncodingForm.Utf8CharForm` | packages/ucan/src/base64url.ts:9-11 | the bytes of a character are the form of section 3 of RFC 3629 for its number: as few as possible, its bits in order |
| `EncodingForm.AlphabetAt` | packages/ucan/src/base64url.ts:1-3 | the characters of base64url are the alphabet of section 5 of RFC 4648, in its order |
| `EncodingForm.ThreeBytes` | packages/ucan/src/base64url.ts:1-3 | three bytes are four characters with the same 24 bits in order |
| `EncodingForm.FewBytes` | packages/ucan/src/base64url.ts:1-3 | two bytes are three characters with two zero bits at the end, one byte is two with four |
| `EncodingForm.MoreBytes` | packages/ucan/src/base64url.ts:1-3 | longer texts are those of three bytes at a time |
| `UcanTheorems.PayloadReadsBack` | packages/ucan/src/parse.ts:12-43 | the printed members of a valid payload read back as the payload |
| `UcanForms.PayloadOfIff` | packages/shared-types/src/ucan.ts:294-309 | a payload is read exactly from the objects that say it member by member, with other members ignored, and only if its DIDs, command, nonce and window are allowed; a member of the wrong shape spoils the whole |
| `UcanForms.CommandIff` | packages/shared-types/src/ucan.ts:4-8 | a command is one or more names of lower-case letters, digits, underscores and hyphens, a slash before each |
| `UcanForms.DidIff` | packages/shared-types/src/did.ts:3 | a DID is `did:`, a method of lower-case letters and digits, a colon, and an id of letters, digits, dots, underscores, colons and hyphens |
| `UcanTheorems.IssueAccepts` | packages/ucan/src/issue.ts:26-43 | issuing succeeds exactly for payloads with decodable DIDs, schema-valid fields and printable free-form parts |
| `UcanTheorems.TokenRoundTrip` | packages/ucan/src/issue.ts:26-43 | parsing an issued token recovers the header and an equal payload with canonical DIDs, and the signature |
| `UcanTheorems.ValidatesIff` | packages/ucan/src/validate.ts:30-81 | a token validates exactly when it is genuine and its window, audience and command accept |
| `Reasons.IssueReasons` | packages/ucan/src/issue.ts:26-43 | which of its three errors issuing fails with |
| `Reasons.TokenReasons` | packages/ucan/src/validate.ts:30-81 | each of the seven errors is given in exactly the stated cases |
| `UcanTheorems.IssuedGenuine` | packages/ucan/src/issue.ts:26-43 | a token signed with the key of its issuer's DID is genuine |
| `UcanTheorems.IssuedValidates` | packages/ucan/src/validate.ts:30-81 | an issued token validates at exactly the times in [nbf, exp), for its audience and the commands it grants |
| `UcanTheorems.TextsOfToken` | packages/ucan/src/parse.ts:12-43 | which texts parse to one token: its own text and, for a signature whose length is no multiple of three, a twin |
| `UcanTheorems.OneTextIff` | packages/ucan/src/parse.ts:12-43 | a token has one text if and only if the length of its signature is a multiple of three |
| `Constraint.CoversTransitive` | packages/ucan/src/constraint.ts:24-78 | covering is transitive |
| `Constraint.CoversReflexive` | packages/ucan/src/constraint.ts:24-78 | a constraint covers itself if and only if its provider is one of the five known ones |
| `Constraint.MutualCoverIsEquality` | packages/ucan/src/constraint.ts:24-78 | covering both ways is equality up to an empty filesystem host |
| `Constraint.CoversContains` | packages/ucan/src/constraint.ts:24-174 | every resource that matches a covered constraint matches the covering one |
| `Constraint.MatchesTightest` | packages/ucan/src/constraint.ts:80-174 | a constraint matches another's smallest resource exactly when it covers it, up to an Azure tenant |
| `Constraint.CoversIffContains` | packages/ucan/src/constraint.ts:24-174 | for filesystem, github, aws and gcp covering is exactly containment of matched resources |
| `Constraint.AzureContainsIff` | packages/ucan/src/constraint.ts:48-57 | for azure covering is containment plus a pinned tenant |
| `ConstraintForms.ReadIff` | packages/shared-types/src/ucan.ts:21-46 | a constraint is read exactly from the objects that have its fields as it is written, and only if the schema allows it |
| `ConstraintForms.CarriesIff` | packages/ucan/src/constraint.ts:9-22 | metadata carries nothing exactly if it has no constraint or null for one, and a constraint exactly if it has that one as it is written |
| `ConstraintForms.OtherProviderIff` | packages/shared-types/src/ucan.ts:252-271 | the thirteen providers beside the five |
| `ConstraintForms.MatchesByFields` | packages/ucan/src/constraint.ts:80-174 | a resource matches a constraint exactly if it obeys every field the constraint is written with: the same value under the same key, a path that starts with the prefix; an empty host and an Azure tenant demand nothing, and none matches one of the thirteen |
| `Chain.CheckTokens` | packages/ucan/src/chain.ts:25-35 | the first pass collects every payload or reports the first token that fails |
| `Chain.CheckLinks` | packages/ucan/src/chain.ts:37-66 | the second pass reports the first link that fails |
| `Chain.ValidateChain` | packages/ucan/src/chain.ts:21-68 | the two loops compute the chain verdict that the results below are about |
| `ChainTheorems.GrantedTransitive` | packages/ucan/src/validate.ts:26-28 | granting is transitive |
| `ChainTheorems.GrantedIffPrefix` | packages/ucan/src/validate.ts:26-28 | on well-formed commands granting is exactly the prefix order on segments |
| `ChainTheorems.AcceptedIff` | packages/ucan/src/chain.ts:21-68 | a chain is accepted exactly when it is not empty, all tokens are genuine and in their windows, the leaf accepts, and every link is in order |
| `Reasons.LinkReasons` | packages/ucan/src/chain.ts:37-61 | which reason a link is refused for, and when the reader of its constraints throws |
| `Reasons.ChainReasons` | packages/ucan/src/chain.ts:21-68 | a chain is refused for its first bad token, whatever its links, and only if all tokens are in order for its first bad link |
| `ChainTheorems.AncestorBounds` | packages/ucan/src/chain.ts:37-61 | in a linked chain every token grants every later one's command and its window contains the later one's |
| `ChainTheorems.ConstraintCovers` | packages/ucan/src/chain.ts:51-61 | where every token of a stretch carries a constraint the first one's covers the last one's |
| `ChainTheorems.ConstraintContains` | packages/ucan/src/chain.ts:51-61 | and every resource the last one matches the first one matches |
| `ChainTheorems.OutOfReachIff` | packages/ucan/src/chain.ts:51-61 | what a linked chain keeps its next carrying token from is exactly what its last token's own constraint excludes |
| `ChainTheorems.GapUncovers` | packages/ucan/src/chain.ts:51-61 | so every linked chain that ends in a token without a constraint goes on to a linked chain whose leaf admits every resource |
| `ChainTheorems.AcceptedAgain` | packages/ucan/src/validate.ts:52-54 | a chain accepted once is accepted at time t if and only if t is in the leaf's window |
| `ChainTheorems.CommandGrantedThroughout` | packages/ucan/src/chain.ts:37-61 | every token of an accepted chain grants the command it was accepted for |
| `Mint.MintService.MintUcan` | apps/control-plane/src/services/ucan-mint.ts:109-229 | root minting changes only the issue table, by one row when it succeeds |
| `Mint.MintService.MintChildUcan` | apps/control-plane/src/services/ucan-mint-child.ts:90-236 | child minting changes only the issue table, and returns the parent chain extended by the new token |
| `MintTheorems.ConstraintReadsBack` | packages/ucan/src/constraint.ts:9-22 | a checked constraint stamped into metadata is extracted as itself |
| `MintTheorems.MetaCarries` | packages/ucan/src/constraint.ts:9-22 | metadata with a constraint entry carries exactly that constraint |
| `MintTheorems.RootMintProduces` | apps/control-plane/src/services/ucan-mint.ts:178-229 | a minted root token, as any reader parses it, is genuine, is the platform's for an active agent of the customer, and has the command, window and constraint asked for |
| `MintTheorems.RootMintOwned` | apps/control-plane/src/services/ucan-mint.ts:109-203 | everything a root token's metadata names is its customer's: the policy, the one connection, and a cloud connection is verified |
| `MintedMetadata.RootMintSays` | apps/control-plane/src/services/ucan-mint.ts:178-229 | a root token, as any reader parses it, says in its metadata the customer and the agent it was minted for, the policy and the connections given, the hints if there are any, and its mode as given or by default; its nonce is the one given, it has no proofs, and its CID is the hash of its text |
| `MintedMetadata.RootMintAccepts` | apps/control-plane/src/services/ucan-mint.ts:109-176 | a root mint succeeds exactly for an active agent of the customer, a policy of the customer and at most one connection, of the customer and, for a cloud, verified, if the payload can be issued |
| `MintedMetadata.RootRefusal` | apps/control-plane/src/services/ucan-mint.ts:109-176 | each of the nine refusals gives a true reason |
| `MintTheorems.ChildMintProduces` | apps/control-plane/src/services/ucan-mint-child.ts:195-236 | a minted child token is genuine, is its parent's audience's, and stays within the parent leaf |
| `MintedMetadata.ChildMintSays` | apps/control-plane/src/services/ucan-mint-child.ts:184-236 | a child token, as any reader parses it, says the customer, the child agent, the length of the parent chain and static mode, and its one proof is the CID of the text of the parent leaf |
| `MintedMetadata.ChildMintAccepts` | apps/control-plane/src/services/ucan-mint-child.ts:90-182 | a child mint succeeds exactly on a sound chain with room, whose leaf is for the calling agent with a key of its own, for an agent of the same customer, within the command, life and constraint of the leaf, if the payload can be issued |
| `MintedMetadata.ChildRefusal` | apps/control-plane/src/services/ucan-mint-child.ts:112-182 | each refusal after the check of the chain gives a true reason |
| `MintedMetadata.ChildChainRefusal` | apps/control-plane/src/services/ucan-mint-child.ts:96-110 | which reason a child mint gives for each error of its parent chain |
| `MintRuns.ChildLinkIff` | apps/control-plane/src/services/ucan-mint-child.ts:130-193 | the new link is in order exactly when the parent leaf's audience is in canonical form and its constraint is absent or of a known provider |
| `MintRuns.ExtendedUsable` | apps/control-plane/src/services/ucan-mint-child.ts:90-236 | a chain extended by a child mint validates throughout the leaf's window exactly under that condition |
| `MintRuns.EveryProducedChainGood` | apps/control-plane/src/services/ucan-mint-child.ts:90-236 | in every run of root and child mints every produced chain is rooted at the platform signer, is no longer than the maximum depth, never outlives its root, and validates for its leaf command throughout the leaf's window exactly when it is a root alone or the token above its leaf is delegable |
| `Decide.Decide` | packages/core/src/decide.ts:91-199 | the statements compute the decision that the results below are about |
| `Decide.MergeContext` | packages/core/src/decide.ts:217-242 | the nested loops merge the sources in order |
| `Decide.AllowsIff` | packages/core/src/decide.ts:91-199 | a request is allowed exactly when its chain is short enough and sound for the command, the root is trusted, nothing is revoked, the resource matches and the policies permit |
| `DecideTheorems.AllowsExactly` | packages/core/src/decide.ts:91-199 | a request is allowed exactly when its chain is short enough, sound, of unrevoked texts, rooted at the trusted issuer, in scope, and the policies permit one query: for the audience of the leaf as principal, the command and resource of the request, the number of links, the audience of the root, the audiences of the earlier tokens in order, and a context that tells what four sources say, later ones over earlier ones |
| `DecideTheorems.OnlyForPrincipal` | packages/core/src/decide.ts:158-163 | policies that permit one principal only let no chain through whose leaf is for another agent |
| `DecideTheorems.MergeConveys` | packages/core/src/decide.ts:217-242 | a merged context has every key of its sources, a value that is no object as the last source has it, and each field of an object as the last source with the field that no later one hides |
| `DecideTheorems.ConveysOnce` | packages/core/src/decide.ts:217-242 | only one context does |
| `DecideTheorems.DenialReasons` | packages/core/src/decide.ts:91-199 | each of the thirteen reasons is given in exactly the stated cases |
| `DecideTheorems.DecisionCarries` | packages/core/src/decide.ts:78-89 | every decision has the receipt of its leaf text and its request; an allow and a denial by the policies add the number of links, if there is one |
| `DecideTheorems.NarrowedIff` | packages/core/src/decide.ts:60-75 | a narrowed constraint is reported exactly if both ends of the chain carry one and they differ |
| `Decide.CapabilityLostAlwaysEmpty` | packages/core/src/decide.ts:60-76 | no decision reports a lost capability, and the reported depth is the number of links |
| `Decide.AllowedByEveryToken` | packages/core/src/decide.ts:110-121 | an allow means every token of the chain is genuine, in its window and grants the command |
| `Decide.AllowedInsideEveryConstraint` | packages/core/src/decide.ts:136-139 | and where every token from one on carries a constraint the resource matches that one's |
| `Decide.RevokedNeverAllowed` | packages/core/src/decide.ts:123-130 | revoking a token by the CID of its own text denies every request over a chain that holds it in that text, which is every chain that holds it if its signature's length is a multiple of three |
| `Decide.RevokesText` | packages/core/src/decide.ts:123-130 | with one CID revoked exactly the chains that hold the very text it is of stop being allowed, short of a collision |
| `Decide.TwinStaysAllowed` | packages/core/src/decide.ts:123-130 | otherwise a chain with the token's twin text in its place stays allowed |
| `Decide.MoreRevokedNeverAllows` | packages/core/src/decide.ts:123-130 | a larger revocation set never turns a denial into an allow, and leaves what stays allowed unchanged |
| `Decide.ReceiptBinds` | packages/core/src/decide.ts:78-81 | equal receipt ids are about the same leaf text and requests with the same meaning, command, resource and context, or two of the texts involved collide |
| `Decide.FieldOfMerge` | packages/core/src/decide.ts:217-242 | which source a merged field comes from |
| `Decide.VouchedWins` | packages/core/src/decide.ts:201-259 | the request's own context never changes an issuer-vouched field, nor the time where the issuer is silent on it |
| `Audit.HexRoundTrip` | packages/audit-verify/src/verify.ts:147-148 | the hex text of bytes reads back as the bytes |
| `Audit.Walk` | packages/audit-verify/src/verify.ts:112-134 | the index loop reports exactly the hash and link mismatches, in order, up to a payload that cannot be printed |
| `Audit.CheckRoot` | packages/audit-verify/src/verify.ts:136-180 | the root branch appends exactly the root errors, at most one of them for the signature |
| `Audit.VerifyBundle` | packages/audit-verify/src/verify.ts:97-228 | the statements compute the verdict that the results below are about |
| `CanonicalBars.CanonicalKeeps` | packages/ucan/src/canonical.ts:8-46 | canonical text has its bars inside string literals only, and closes every literal |
| `CanonicalBars.CanonicalAfterBar` | packages/audit-verify/src/verify.ts:112-116 | a previous hash, a bar and a canonical text are one text in one way only, whatever the previous hash is |
| `AuditTheorems.OkIffAllChecks` | packages/audit-verify/src/verify.ts:97-228 | a bundle is ok if and only if every stated check holds, and then without errors |
| `AuditReasons.ErrorsExactly` | packages/audit-verify/src/verify.ts:97-228 | the verifier throws exactly on a payload that cannot be printed; else its list holds exactly the faults of the bundle, each once, under its own reason and index, in the order of event id, events, root, anchor |
| `AuditTheorems.SameHashSameEvent` | packages/audit-verify/src/verify.ts:112-124 | two self-hashed events with one hash have the same contents, or their texts collide |
| `AuditTheorems.MeetingChainsAgree` | packages/audit-verify/src/verify.ts:112-134 | two chains that meet in one hash agree on everything before it, as far as both go |
| `AuditTheorems.CommonEndCommonSuffix` | packages/audit-verify/src/verify.ts:112-134 | tamper evidence: of two chains with the same last hash the shorter is a suffix of the longer, contents and all, or a collision is at hand |
| `AuditTheorems.EmitKeepsHonest` | apps/pdp/src/audit/postgres-emitter.ts:109-128 | appending keeps a log chained from its customer's genesis hash |
| `AuditTheorems.HonestSliceVerifies` | packages/audit-verify/src/verify.ts:97-228 | completeness: any slice of an honest log with the root signed at its end, and the anchor when it starts at the first event, is ok without errors |
| `AuditTheorems.NoEventBeforeGenesis` | apps/control-plane/src/services/audit-genesis-anchor.ts:23-27 | no chain that meets an honest log reaches back beyond its first event without a collision or the genesis secret |
| `AuditTheorems.VerifiedEventsAreHonest` | packages/audit-verify/src/verify.ts:136-180 | soundness: if the audit key was used only on roots of honest logs and on anchors, every event up to a verified root is, contents and all, the event at its place in that customer's log, or the bundle exhibits a forged signature, a collision or the genesis secret |
| `AuditService.StoredRootVerifies` | apps/control-plane/src/services/audit-roots.ts:38-80 | every stored root belongs to an event of some log, and every slice of the log that ends there verifies with it |
| `AuditService.AppendKeepsTables` | apps/pdp/src/audit/postgres-emitter.ts:109-128 | an append leaves every stored root and anchor correct |
| `AuditService.AuditTables.EmitEvent` | apps/pdp/src/audit/postgres-emitter.ts:85-128 | appends one chained event to one customer's log and keeps the tables correct |
| `AuditService.AuditTables.SignRootForCustomer` | apps/control-plane/src/services/audit-roots.ts:38-80 | signs the head of the log, stores the root once, and keeps the tables correct |
| `AuditService.AuditTables.WriteAnchor` | apps/control-plane/src/services/audit-genesis-anchor.ts:66-117 | writes one anchor per customer, keeps the one already there, and keeps the tables correct |
| `ReceiptTree.Printer.Index` | packages/audit-verify/src/cli.ts:65-74 | the loops build the id index and the child lists |
| `ReceiptTree.Printer.Walk` | packages/audit-verify/src/cli.ts:80-93 | the recursion ends, and prints what its path leads to, on any distinct ids and parent links without a loop through an empty id |
| `ReceiptTree.Printer.WalkChildren` | packages/audit-verify/src/cli.ts:85-92 | the loop walks the children in order |
| `ReceiptTree.Printer.Print` | packages/audit-verify/src/cli.ts:65-96 | the output is the printing of the roots in order |
| `ReceiptTree.PathBounded` | packages/audit-verify/src/cli.ts:65-96 | no chain of parents from a root is longer than the number of events |
| `ReceiptTree.PrintedIffReached` | packages/audit-verify/src/cli.ts:65-96 | an event is printed if and only if its chain of parents reaches a root |
| `ReceiptTreeOrder.PrintedLines` | packages/audit-verify/src/cli.ts:65-96 | the printed lines are exactly those of the paths from an event without a parent in the list, each indented by a column for every event above it that is a bar unless that event is the last of its siblings, and marked by whether it is the last itself |
| `ReceiptTreeOrder.OrphanPrinted` | packages/audit-verify/src/cli.ts:74 | an event whose parent id is missing, empty or no id of an event is always printed, at the left margin |
| `ReceiptTreeOrder.PrintedInOrder` | packages/audit-verify/src/cli.ts:86-95 | the lines stand in depth-first order, siblings and roots as they stand in the list |
| `ReceiptTree.PrintedOnceIff` | packages/audit-verify/src/cli.ts:65-96 | no event is printed twice exactly unless the walk reaches an event with the empty id and some event has the empty string for its parent |
| `ReceiptTree.WalkEnds` | packages/audit-verify/src/cli.ts:80-93 | the walk from the end of a path needs no more depth than the events the path leaves |
| `ReceiptTree.LoopNeverEnds` | packages/audit-verify/src/cli.ts:80-93 | from an event on a loop through an empty id the walk is still going at every depth |
| `ReceiptTree.EndsIff` | packages/audit-verify/src/cli.ts:65-96 | for distinct ids the printing ends if and only if no event with the empty id is its own ancestor along parent links |
| `RateLimit.MakeLimits` | apps/control-plane/src/oidc/rate-limit.ts:31-34 | by default a bucket holds ten seconds' worth and at least one token |
| `RateLimit.TokenBucketRateLimiter.TryAcquire` | apps/control-plane/src/oidc/rate-limit.ts:36-57 | one call's answer and the one bucket it changes |
| `RateLimit.TokensInRange` | apps/control-plane/src/oidc/rate-limit.ts:36-57 | token counts stay between zero and the burst |
| `RateLimit.RateBound` | apps/control-plane/src/oidc/rate-limit.ts:31-57 | in any window of time a key is admitted at most burst + rate * length times, whatever the calls |
| `RateLimit.SmallBurstAdmitsOnce` | apps/control-plane/src/oidc/rate-limit.ts:38-42 | a bucket smaller than one token admits only the call that opens it |
| `RateLimit.IdleKeyAdmitted` | apps/control-plane/src/oidc/rate-limit.ts:36-57 | a key that waited for one token's refill is admitted |
| `RateLimit.AdmittedIff` | apps/control-plane/src/oidc/rate-limit.ts:35-55 | a call is admitted exactly when that keeps every window that ends with it inside the rate bound: nothing is withheld |
| `RateLimit.BurstAtOnce` | apps/control-plane/src/oidc/rate-limit.ts:38-42 | of calls at one instant for a key not seen before as many are admitted as fit the burst |
| `RateLimit.OtherKeysNoEffect` | apps/control-plane/src/oidc/rate-limit.ts:36-57 | a key's outcomes are the same without the calls for other keys |
| `CredsCache.CredsCache.Get` | apps/control-plane/src/cloud/creds-cache.ts:50-60 | what is served and which entry is dropped |
| `CredsCache.CredsCache.Set` | apps/control-plane/src/cloud/creds-cache.ts:61-67 | what is stored, or nothing for credentials already stale |
| `CredsCache.CredsCache.Delete` | apps/control-plane/src/cloud/creds-cache.ts:68-73 | the key loop removes exactly the keys of the connection |
| `CredsCache.BarFreeApart` | apps/control-plane/src/cloud/creds-cache.ts:50-73 | ids without bars never share keys |
| `CredsCache.KeyInjective` | apps/control-plane/src/cloud/creds-cache.ts:50-52 | among ids that are apart the joined key tells connection and scope apart |
| `CredsCache.GetReturnsLastSet` | apps/control-plane/src/cloud/creds-cache.ts:44-77 | refinement: a get returns precisely the last non-stale set since the connection was last deleted, and only before its expiry |
| `CredsCache.LastSetSpec` | apps/control-plane/src/cloud/creds-cache.ts:44-77 | what "the last set" means, in terms of the history, and that its expiry is before the credentials' own less the margin |
| `CredsCache.ServedIff` | apps/control-plane/src/cloud/creds-cache.ts:52-68 | a get at t returns credentials exactly if they are those of the last set of the pair that was neither stale nor cleared since, and t is before their expiry less the margin and before the time of that set plus the cap |
| `CredsCache.ServedByDefault` | apps/control-plane/src/cloud/creds-cache.ts:45-46 | by default for a quarter of an hour at most, and up to a minute before they expire |
| `CredsCache.ClashServesOther` | apps/control-plane/src/cloud/creds-cache.ts:50-73 | ids that continue one another past a bar are served each other's credentials |
| `Usage.UsageService.Check` | apps/control-plane/src/services/usage.ts:95-101 | the read half lets a call through exactly below the cap |
| `Usage.UsageService.Upsert` | apps/control-plane/src/services/usage.ts:103-129 | the upsert half bumps the row as it is by then, in the period that was read |
| `Usage.UsageService.Increment` | apps/control-plane/src/services/usage.ts:95-130 | alone, an increment never passes the cap and reports the row it leaves |
| `Usage.NoIncrementLost` | apps/control-plane/src/services/usage.ts:95-130 | under every interleaving a counter is the number of completed upserts, and every admitted call completed, died or is in flight |
| `Usage.LetThroughIff` | apps/control-plane/src/services/usage.ts:27-31 | after any run a call is let through exactly while fewer calls of its kind have completed in its period than the plan last given to the customer allows, a thousand if none was given |
| `Usage.CounterBounded` | apps/control-plane/src/services/usage.ts:95-130 | with at most n calls in flight a counter plus its calls in flight never exceeds cap + n - 1 |
| `Usage.BoundIsMet` | apps/control-plane/src/services/usage.ts:89-130 | on every plan that bound is reached for every n, so check and increment are not one statement |
| `Usage.PendingIsTotal` | apps/control-plane/src/services/usage.ts:105-126 | the pending Stripe count always is the row's total |
| `Usage.ReportNeverAhead` | apps/control-plane/src/services/usage.ts:125-129 | a reported count never exceeds the row |
| `Envelope.EnvelopeStore.CreateEnvelope` | apps/control-plane/src/services/envelope-store.ts:57-78 | appends a row that is active for its agent exactly until its time to live is over |
| `Envelope.EnvelopeStore.CreateStandingEnvelope` | apps/control-plane/src/services/envelope-store.ts:94-113 | appends a row that is active at all times |
| `Envelope.EnvelopeStore.RevokeEnvelope` | apps/control-plane/src/services/envelope-store.ts:168-191 | marks that customer's unrevoked row, and reports whether there was one |
| `Envelope.EnvelopeStore.PurgeExpired` | apps/control-plane/src/services/envelope-store.ts:198-212 | deletes exactly the expired unrevoked rows and counts them |
| `Envelope.NewestActiveCover` | apps/control-plane/src/services/envelope-store.ts:115-166 | the lookup finds an envelope exactly when an active one covers the intent, and then the most recently created |
| `Envelope.PurgeInvisible` | apps/control-plane/src/services/envelope-store.ts:198-212 | purging never changes a later list of active envelopes |
| `Envelope.PurgeVisibleEarlier` | apps/control-plane/src/services/envelope-store.ts:198-212 | only a list at an earlier time could tell |
| `Envelope.RevokeTakesOff` | apps/control-plane/src/services/envelope-store.ts:168-191 | revoking takes exactly that envelope off every list at every time |
| `Envelope.NarrowingStaysCovered` | apps/control-plane/src/services/envelope-store.ts:155-166 | narrowing a covered intent keeps it covered |
| `Envelope.SilentIff` | apps/control-plane/src/services/intent-classifier.ts:81-110 | a silent mint is decided exactly when nothing is sensitive or high-risk, the verifier does not object and an active envelope covers the intent |
| `ClassifierTheorems.ClassifyIff` | apps/control-plane/src/services/intent-classifier.ts:81-156 | each of the six answers is given in exactly the stated cases, in terms of the texts of the actions, the lowered path or repository, the fields of the envelopes and the verifier |
| `ClassifierTheorems.VerbIff` | apps/control-plane/src/services/intent-classifier.ts:126-131 | the verb of an action is what stands after its last slash |
| `ClassifierTheorems.VerbStepsUp` | apps/control-plane/src/services/intent-classifier.ts:126-144 | whatever envelopes there are, an action that ends in a slash and one of the eight mutating verbs is stepped up, with the right one of three reasons |
| `ClassifierTheorems.PathStepsUp` | apps/control-plane/src/services/intent-classifier.ts:112-117 | so is a path whose lowered prefix holds one of the nine fragments anywhere |
| `ClassifierTheorems.RepoStepsUp` | apps/control-plane/src/services/intent-classifier.ts:118-123 | and a repository whose lowered name is one of the five or starts with `infra-` |
| `Envelope.SensitiveStaysSensitive` | apps/control-plane/src/services/intent-classifier.ts:112-124 | narrowing never makes a sensitive constraint harmless |
| `Envelope.SensitiveEnvelopeNeverSilent` | apps/control-plane/src/services/intent-classifier.ts:81-124 | an envelope over something sensitive is never minted from silently |
| `Approvals.ActFollows` | apps/control-plane/src/services/stepup/create.ts:101-267 | every act leaves a decided row as it is but for its first claim |
| `Approvals.ActKeepsKeys` | apps/control-plane/src/services/stepup/create.ts:101-127 | one row per id and at most one pending row per customer, agent, command and resource hash |
| `Approvals.ActKeepsSealed` | apps/control-plane/src/services/stepup/cosigner.ts:61-136 | a row with a cosigner token was approved by signing that token, with an original CID |
| `Approvals.CidGiven` | apps/control-plane/src/services/stepup/create.ts:229-266 | an original CID is only ever given by an opening of that very approval |
| `ApprovalEffects.OpeningNew` | apps/control-plane/src/services/stepup/create.ts:72-305 | opening adds a pending row with the data of the input, under an id that is not taken, for an agent of the customer |
| `ApprovalEffects.OpeningAgain` | apps/control-plane/src/services/stepup/create.ts:99-227 | opening what is pending answers with the row there is, put up again if it has lapsed |
| `ApprovalEffects.Cosigning` | apps/control-plane/src/services/stepup/cosigner.ts:61-136 | cosigning approves exactly a pending row of the customer that has not lapsed, has a CID and an agent, with the token for them, in the name of the user, and else changes nothing and says why |
| `ApprovalEffects.Denying` | apps/control-plane/src/services/stepup/cosigner.ts:148-167 | denying denies exactly the pending row of that id and customer |
| `ApprovalEffects.Tapping` | apps/control-plane/src/services/notify/telegram-bot.ts:258-270 | a tap decides exactly the pending row of that id, without a token or a user |
| `ApprovalEffects.Claiming` | apps/control-plane/src/routes/internal.ts:200-215 | a claim marks exactly the approved, unclaimed row of that id |
| `ApprovalEffects.CosignerSays` | apps/control-plane/src/services/stepup/cosigner.ts:105-126 | a cosigner token, as any reader parses it, says which token and which approval it is for, who decided and in which mode, is the platform's and is for the agent |
| `ApprovalEffects.ReadingToken` | apps/control-plane/src/routes/intent.ts:265-277 | whatever the token, it reads as an approval exactly if it names one, is genuine, in its window and of a command that grants the envelope command; it is called expired exactly if it names one, is genuine and its window is over |
| `Approvals.ApprovalStore.Consume` | apps/control-plane/src/routes/internal.ts:200-215 | a claim succeeds exactly on an approved row not claimed before |
| `Approvals.CosignerReads` | apps/control-plane/src/services/stepup/cosigner.ts:105-126 | a cosigner token reads as the approval and mode it was signed for, in exactly its window and for exactly the envelope command |
| `Intent.IntentRoutes.PostIntent` | apps/control-plane/src/routes/intent.ts:63-211 | the handler's statements change the tables and answer as the request step does |
| `Intent.IntentRoutes.MintChildUcan` | apps/control-plane/src/routes/intent.ts:215-248 | one token for the intent's first action, recorded with its envelope |
| `IntentAnswers.RefusalsAre` | apps/control-plane/src/routes/intent.ts:63-102 | each refusal before anything is looked up is given in exactly the stated cases and changes nothing |
| `IntentAnswers.SilentAnswer` | apps/control-plane/src/routes/intent.ts:133-170 | a silent mint asks for a token with the data of the request, dynamic mode and the first action, records it with the envelope the classifier found and answers with its id and the end of the token |
| `IntentAnswers.StepUpAnswer` | apps/control-plane/src/routes/intent.ts:172-211 | a step-up opens an approval of the envelope command for the constraint, actions and lifetime of the intent and the reason of the classifier, without a CID, and answers with its id |
| `IntentAnswers.CosignedAnswer` | apps/control-plane/src/routes/intent.ts:104-131 | a cosigned request is refused with the reason of the reader, as naming no approval in force, or as not what was approved, or else adds exactly one envelope with the data of the request, in the name of the approver, for a day or until revoked, and mints in it |
| `Intent.MatchesIff` | apps/control-plane/src/routes/intent.ts:296-311 | exactly which intents match an approved spec |
| `Intent.RetryMatches` | apps/control-plane/src/routes/intent.ts:296-311 | the proposed intent itself matches exactly when its provider is a known one |
| `Intent.MatchIsEquality` | apps/control-plane/src/routes/intent.ts:302-311 | a match means the same set of actions exactly when both lists name equally many different ones; distinct actions always do |
| `Intent.DuplicateMatches` | apps/control-plane/src/routes/intent.ts:308-310 | an intent that repeats one approved action and omits another matches |
| `Intent.EnvelopesNext` | apps/control-plane/src/routes/intent.ts:104-170 | only a cosigned request adds an envelope; only revoking and purging touch the others |
| `Intent.GrantIff` | apps/control-plane/src/routes/intent.ts:260-294 | a cosigned request is granted exactly when its token reads and an approved row vouches for its intent; neither the row's agent nor its claim counts |
| `Intent.NewEnvelopeApproved` | apps/control-plane/src/routes/intent.ts:260-294 | an added envelope lies inside an approved spec whose attestation the request carried, and is the approved agent's exactly when that agent asked |
| `Intent.GrantNeverSpent` | apps/control-plane/src/routes/intent.ts:104-131 | after a granted request, and whatever happens in between, every agent that presents the token for that intent while it reads is granted an envelope of its own |
| `Intent.ApprovalHonoured` | apps/control-plane/src/services/stepup/cosigner.ts:61-145 | the token of a cosigning is granted exactly from a minute before to five minutes after it, for the envelope command and a matching spec |
| `Intent.BorrowedApproval` | apps/control-plane/src/routes/intent.ts:260-294 | a run in which an approval opened for one agent gives another its envelope |
| `Intent.RowsStay` | apps/control-plane/src/db/schema.ts:538-562 | over any run an approval only moves from pending to decided and from unclaimed to claimed |
| `Intent.ProposalsLeadNowhere` | apps/control-plane/src/routes/intent.ts:172-196 | if nobody else opens an envelope approval with an original CID, no run creates an envelope or mints a token |
| `Intent.GrantLasts` | apps/control-plane/src/routes/intent.ts:104-131 | a granted envelope is active for exactly a day, a standing one always |
| `Intent.OnlyCosignedWidens` | apps/control-plane/src/routes/intent.ts:104-170 | no other step makes an envelope active that was not |
| `Intent.EveryMintInside` | apps/control-plane/src/routes/intent.ts:104-170 | in every run every token was minted in an envelope of that agent, active at that moment, that covers the intent |
| `Intent.MintedTokenInside` | apps/control-plane/src/routes/intent.ts:215-248 | the token, as any reader parses it, is genuine, its command is one of the envelope's, its constraint lies inside the envelope's, and it ends within an hour |
| `Intent.NoTokenOutlives` | packages/shared-types/src/intent.ts:4-15 | in every run no token lasts more than 3600 s past its envelope's expiry or revocation |
| `Tokenizer.Tokenize` | packages/adapters/src/transforms.ts:60-118 | the loops compute the tokens, ending on every text |
| `Tokenizer.ReadToken` | packages/adapters/src/transforms.ts:63-116 | the branches and inner loops read one token |
| `Tokenizer.ClosingAfterEscape` | packages/adapters/src/transforms.ts:87-97 | an escaped body ends at its own quote and not before |
| `Tokenizer.UnescapeEscape` | packages/adapters/src/transforms.ts:95 | escaping is undone |
| `Tokenizer.TokenRoundTrip` | packages/adapters/src/transforms.ts:60-118 | a list of tokens is some text's exactly when every token can be spelled, and then its printing is such a text |
| `TokenizerForms.TokensIff` | packages/adapters/src/transforms.ts:60-118 | a text has a list of tokens exactly if it is they, each as long as it goes, with white space around; a string is spelled with its quote and backslashes escaped |
| `Expression.Parser.Primary` | packages/adapters/src/transforms.ts:150-199 | the descent returns the value of the longest expression read, consuming exactly its tokens |
| `Expression.Parser.Call` | packages/adapters/src/transforms.ts:163-182 | the call branch evaluates arguments in order, then applies the function |
| `Expression.Parser.Arguments` | packages/adapters/src/transforms.ts:165-173 | the argument loop |
| `Expression.Parser.MemberChain` | packages/adapters/src/transforms.ts:184-194 | the member-access loop |
| `Expression.Parser.Lookup` | packages/adapters/src/transforms.ts:201-209 | following a path through anything that is no object gives undefined |
| `Expression.Parser.Parse` | packages/adapters/src/transforms.ts:127-133 | a value only if every token is consumed |
| `Expression.EvalExpression` | packages/adapters/src/transforms.ts:212-216 | the value of a text, undefined for an empty one |
| `Expression.ElseThrowsIff` | packages/adapters/src/transforms.ts:21-48 | a call of a name off the whitelist always throws if and only if the name is not inherited or what it inherits always throws |
| `Expression.InheritedCalled` | packages/adapters/src/transforms.ts:182-184 | a text that calls an inherited name evaluates to what that name does |
| `Expression.CoalesceFirst` | packages/adapters/src/transforms.ts:46-47 | the first argument that is not blank, or null if all are |
| `Expression.DefaultVsCoalesce` | packages/adapters/src/transforms.ts:17-48 | exactly when `default` is the alias of `coalesce` it is described as |
| `Expression.RenderUnambiguous` | packages/adapters/src/transforms.ts:4-10 | different expressions have different tokens |
| `Expression.ReadSound` | packages/adapters/src/transforms.ts:150-199 | an expression read is well formed and has exactly the tokens it took |
| `Expression.ReadComplete` | packages/adapters/src/transforms.ts:150-199 | an expression that stands in a list of tokens and cannot go on is what is read there |
| `Expression.ParserExact` | packages/adapters/src/transforms.ts:120-199 | the parser accepts a list of tokens with a value if and only if it is that of a well-formed expression with that value |
| `Expression.TextExact` | packages/adapters/src/transforms.ts:60-216 | a text that spells an expression evaluates to its value, and printing an expression gives such a text |
| `ExpressionMeaning.EvalMeans` | packages/adapters/src/transforms.ts:36-48 | the evaluator follows the rules: literals and the three words mean themselves, a path what its names lead to, a call what its name gives for the values of its arguments in order, with a rule for each of the seven names |
| `ExpressionMeaning.TextMeans` | packages/adapters/src/transforms.ts:120-216 | a text evaluates to a value exactly if it has no tokens and the value is undefined, or it spells an expression that means the value |
| `PolicyClause.ParseClause` | packages/policy-builder/src/parse.ts:148-220 | the recursion with its loops computes the clause an expression reads as |
| `PolicyClause.EmitHasAttr` | packages/policy-builder/src/emit.ts:91-103 | the loop builds the chain of presence tests |
| `PolicyClause.QuoteUndone` | packages/policy-builder/src/emit.ts:115-117 | a quoted string is undone by unescaping and closes at its own end, wherever it stands |
| `CedarText.ReadLegible` | packages/policy-builder/src/parse.ts:15-37 | whatever Cedar reads has names for attributes and Cedar's variables and literals |
| `CedarTheorems.FlatTextReads` | packages/policy-builder/src/emit.ts:73-113 | the printed text of a legible conjunction of comparisons and presence tests is read back as that expression |
| `PolicyRoundTrip.TextReadsAsMeant` | packages/policy-builder/src/emit.ts:73-113 | Cedar reads what a clause emits as the expression meant exactly when its path starts with a variable and goes on with names and its values are Cedar's |
| `PolicyClause.PathReadsBack` | packages/policy-builder/src/parse.ts:222-231 | a path's expression reads back as the path exactly when it starts with a name |
| `PolicyRoundTrip.ClauseRoundTrip` | packages/policy-builder/src/parse.ts:148-220 | a clause is recognised in what it emits, as Cedar reads it, exactly under that condition and, for a presence test, with a path of two parts |
| `PolicyRoundTrip.Reemission` | packages/policy-builder/src/emit.ts:73-103 | what Cedar reads in a re-emitted expression is that very expression exactly when its attributes are names and it is no presence test on a longer path |
| `PolicyRoundTrip.OddNameMisread` | packages/policy-builder/src/emit.ts:73-77 | for every name, an attribute of that name followed by `&& principal` is re-emitted as another expression with another value |
| `PolicyClause.ChainIsTest` | packages/policy-builder/src/emit.ts:91-103 | the chain of tests says what the single test says unless an attribute on the way is missing, and is false then |
| `PolicyRoundTrip.MeaningKept` | packages/policy-builder/src/emit.ts:73-103 | re-emission of an expression whose attributes are names keeps the meaning in exactly the worlds where no attribute on the way to a presence test is missing |
| `Sanitize.SelectedMasked` | packages/adapters/src/sanitize.ts:5-47 | every value a rule's path selects is masked |
| `Sanitize.OthersKept` | packages/adapters/src/sanitize.ts:5-47 | and at every position not at or below a selected one nothing changes |
| `Sanitize.SanitizedKeepsOthers` | packages/adapters/src/sanitize.ts:49-57 | nor does a whole list of rules change anything at a position that no rule's path selects or leads above |
| `Sanitize.LeftAfterRule` | packages/adapters/src/sanitize.ts:30-37 | right after a rule ran every position it selects holds what it leaves there: the word for redacting, a string's length for hashing, and for truncating the first characters and an ellipsis of a longer string |
| `Sanitize.MaskTwiceIff` | packages/adapters/src/sanitize.ts:31-37 | masking twice is masking once exactly for rules that do not end up hashing |
| `Sanitize.RuleTwice` | packages/adapters/src/sanitize.ts:5-47 | such a rule is idempotent on every value and path |
| `Sanitize.HashNotTwice` | packages/adapters/src/sanitize.ts:33-34 | a hashing rule is not |
| `Sanitize.ApplyInPlace` | packages/adapters/src/sanitize.ts:5-47 | the in-place assignments on a tree of nodes turn its value into the rule's result and touch no other node |
| `Sanitize.EachInPlace` | packages/adapters/src/sanitize.ts:15-25 | the loop over elements does so for each of them |
| `Sanitize.ApplySanitize` | packages/adapters/src/sanitize.ts:49-57 | the argument and everything else that existed stay unchanged; the result is a new tree with the sanitised value |

## Left out

- Numbers: JSON numbers are integers; fractions, exponents and `-0` are not modelled. The token bucket counts in
  reals, without floating-point rounding. Counter columns are unbounded, without the 32-bit limit of the database.
- Strings are sequences of code points without lone surrogates: canonical key order and string lengths are by code
  point, not by UTF-16 unit, and `toLowerCase` is a parameter.
- Encoding: the decoders are strict, where Node's base64 decoder skips foreign characters, so that tokens have more
  texts than the modelled ones, and its UTF-8 decoder substitutes U+FFFD.
- Objects: names inherited from a prototype, in context lookups and in the `in` test of sanitising, are not modelled;
  nor are Dates and other objects in canonical values.
- Foreign code: SHA-256, Ed25519, base58 DIDs, Unicode normalisation, `Date`, `String`, `Number`, random ids, Cedar
  evaluation and escapes in Cedar's literals are parameters or are left out; sealing of private keys at rest is not modelled.
- The fields of the thirteen providers that neither constraint check reads.
- Texts and details of error messages, logging, metrics and notifications.
- HTTP routes other than the intent request, authentication, dashboards, publishers, adapters and connectors.
- Races between statements, except in the quota counters, where they are the point. The emitter's per-process cache
  of last hashes and its write queue are one append step.
- Sweeps over all customers (`signRootsForAllCustomers`, `backfillMissingAnchors`): loops over the modelled steps.
- The customer and event ids beside an event's payload are not covered by its hash, so no result speaks of them
  beyond what the verifier compares.
- Policies beyond clauses: principals, actions, resources and annotations of the visual builder are finite shapes.
- CedarText: index access, calls, entities, arithmetic, `||`, `!`, `if`, `like` and `is` are read as nothing; no clause
  emits them. `PolicyClause.ParseClause` starts from Cedar's own parse of a policy, so raw text is not read.
- Intent.IntentRoutes.PostIntent: reads the clock once, where the source reads it in several places. Risk summaries,
  notifications and the passkey check of approvals are not modelled; taps in the chat and denials are arbitrary steps.
- Intent.MintedTokenInside: the tables that minting reads are fixed over the run of envelope steps.
- MintRuns.EveryProducedChainGood: concerns chains produced by these two operations; tokens that other holders of
  keys sign are covered by `ChainTheorems.AcceptedIff` and `Decide.AllowsIff`.
- Decide.AllowsIff: Cedar is an arbitrary predicate over the query.
- Expression.TextExact: the values of `now` and `uuid` are given per place of the call.
