# Diet Mac'n'Cheese: zero-knowledge and multi-party protocols over authenticated values

Models and proofs of the protocol core of Diet Mac'n'Cheese: the homomorphic commitments, the checks built on them
(products, polynomials of high degree, ranges, comparisons), the circuit backend, the three ways of generating and
converting edaBits, and the wire memory behind the circuit evaluator.

`dafny verify dfyconfig.toml` checks everything.

## How the model is built

A prover holds a value `x` and a tag `m`, a verifier a global key `delta` and a key `k`, and `m = k + delta x`
(`Homcom.Auth`). Fields are ring dictionaries: results about honest runs and exact acceptance hold in every commutative
ring with the stated structure, counting results in every domain. The prime field is the integers modulo an arbitrary
prime `P`; the wrap-around that the range and truncation proofs are about is therefore in the model.

The parties are classes with the program's mutable state: pools of correlated pairs, queues, accumulators, generators.
`Linked` says that a prover's and a verifier's pool belong together. A `Run…` method takes the program's steps for both
parties, in the program's order, and its contract says what a run decides, what it leaves behind and how many correlated
pairs (VOLEs) each side has used. The values that a supply ever delivers are numbered (`Homcom.Delivered`), so a
contract also says which random values went into a result: a `Stock` is a prover's supplies with how much of them is
used, a `Feed` a generator's seeds and position on top of it. What a run sends and opens comes back as a trace, and a
`…Traced` predicate fixes it as a function of the inputs, the challenges and those numbered values. Verdicts are stated
for arbitrary authenticated inputs, right or wrong, and as equivalences. Challenges, sampled bits, permutations and
hashes are parameters, so every statement holds for all of them.

| files | what they cover |
|---|---|
| `Rings`, `RingNormaliser`, `PrimeField`, `Polynomials`, `Sums`, `Arith`, `Options` | algebra: a reflective normaliser for ring identities, the prime field, polynomials and their roots |
| `Homcom`, `QuickSilver` | commitments, opening, zero checks, the multiplication check and its batched state |
| `HdValues`, `HdMacs`, `HdQuicksilver` | values of high degree: arithmetic on macs as polynomials, their check, its mask |
| `RangeCheck`, `RangeLists`, `RangeRun` | range proofs: the checked polynomials, chunks, signed bounds, whole runs |
| `Backend`, `Comparator` | gates of a circuit with queued checks; comparison and bit conversions on wires |
| `Bits`, `Shares`, `MpcCombine`, `MpcEdabits`, `MpcOriginalEdabits`, `MpcCheddaEdabits` | edaBits between two peers: sharing, combining, cut-and-choose, and the generator-based variant |
| `Fdabit`, `FdabitRun`, `Shuffle`, `EdabitConversion`, `EdabitConversionRun` | conversion checks by cut-and-choose |
| `CheddaPrg`, `CheddaMaj7`, `CheddaChecks`, `CheddaBits`, `CheddaBitsV2`, `CheddaConv`, `CheddaLists`, `CheddaConvRun`, `CheddaFpMult`, `CheddaFpLists`, `CheddaFpRun` | daBits from a local generator, how it is seeded and reseeded, conversions and truncated products checked with them |
| `Startup` | freshly initialised parties satisfy the invariants that all runs keep |
| `WireEnvironment`, `WirePool`, `WireLayout`, `WireFrames`, `WireMemory`, `WireProgram` | wire memory against a plain environment of frames and names |

## Main results

* **Commitments.** Opening, zero and product checks accept exactly when `delta` (or `delta^2`) times the
  challenge-weighted sum of what is wrong vanishes (`Homcom.OpenExact`, `QuickSilver.MultiplyExact`); a wrong list of
  `n` passes for at most `n` challenges, and any forged last message for at most two keys.
* **High degree.** Arithmetic keeps `poly(delta) = mac` for any degrees; a check is exact and complete whatever the mask
  and the challenge (`HdQuicksilver.QsExact`, `QsComplete`), and a forged proof passes for at most as many keys as its
  degree.
* **Ranges.** Chunks that make every check vanish exist exactly for integers in the bounds, without wrap-around
  (`RangeCheck.RangeProofExact`). For arbitrary committed chunks the lists of the program's checks mean exactly that
  (`RangeLists.CheckedMean`), so a value outside passes for at most as many challenges as there are checks.
* **Circuits.** Over every program, with checks flushed at any moments, the prover meets an error exactly when an
  asserted wire is not zero; otherwise the verifier accepts, all wires are authenticated clear values, and wires and
  messages are those of a reference run of the gates (`Backend.RunProgram`).
* **EdaBits between peers.** From the same clear inputs either sharing policy opens the same result, a function of the
  inputs alone (`MpcEdabits.RunFromClear`); generated ones open, at every position, to the sum modulo `2^k` of the rows
  of random bits that the two peers drew (`MpcEdabits.RunGenerate`); cut-and-choose of the shuffled lists accepts
  exactly when the cut is consistent and every bucket cancels, and an inconsistent output needs a bucket without any
  consistent member (`MpcOriginalEdabits.RunCutAndChoose`); with local generators both peers open the sums of two
  reference streams (`MpcCheddaEdabits.RunGenerate`).
* **Conversions.** The generator-based proof accepts exactly the consistent tuples
  (`CheddaConvRun.RunVerifyConversions`); the bucketed one exactly those whose weighted discrepancies vanish in every
  bucket (`EdabitConversionRun.RunConv`). For arbitrary corrections, the lists that the generator-based proof checks
  vanish exactly when all corrections are right and all tuples consistent (`CheddaLists.BatchExact`), so anything else
  passes one of its two checks for few challenges only (`CheddaLists.FewChallengesAcceptConversions`). Both use exactly
  the VOLEs that the program estimates, for tuples with bits.
* **The local generator.** Both parties' outputs agree in both fields for every index tuple
  (`CheddaChecks.OutputsAgree`); what comes out across any number of reseedings is one reference stream
  (`CheddaConv.RunGenDabits`), which starts at the first seed: the next random bits themselves
  (`CheddaConv.RunFirstSeed`).
* **Truncated products.** For arbitrary corrections the checked lists vanish exactly when the corrected bits satisfy
  both equations of every multiplication (`CheddaFpLists.FpMean`), which with room for the bits means truncation
  (`CheddaFpLists.FewChallengesAcceptProducts`).
* **Wire memory.** Over every well-formed run each `get` returns the last value written to the wire through any of its
  names, across call frames, slices, chunks, vectors and the periodic renewal (`WireProgram.RunProgram`).

## Findings

What the proofs show the code does other than its names or comments suggest.

* `cheddaconv.rs:323-342`: the VOLE estimate for conversions is exact for a non-empty batch if and only if tuples have
  at least one bit. With none, `num_expansions - 1` is computed from zero: an unsigned underflow, and read over the
  integers a value below the real cost (`CheddaConvRun.EstimateExact`, `EstimateWithoutBits`).
* `cheddaconv.rs:354-436`: the two equations checked for a fixed-point product mean truncation if and only if `f = 0` or
  `2^(k+2f) <= p` (`CheddaFpMult.TruncationExact`). The prover only needs `k + 2f` bits in its decomposition of a field
  element. With `f > 0` and `k + 2f` equal to the bit length of the modulus it has them, yet the equations are then also
  met by the bits of the product plus `p`, with another upper part (`CheddaFpMult.WithoutRoom`). An honest prover is
  judged correctly all the same (`CheddaFpMult.ProductDecides`, `CheddaFpRun.RunVerifyFpMult`).
* `cheddabits.rs:94-230`: an honest run of version 1 can fail: exactly when a sampled mask lets a row's sum leave the
  range (`CheddaBits.RunGenDabitsV1`); `CheddaBits.EveryChallenge` gives the masks that pass whatever the challenge.
* `edabits.rs:111-123`, `mpc_original_edabits.rs:21-32`: the shuffle draws its index from `[0, i)` and not `[0, i]`. It
  yields a permutation, but never one that leaves an element in place, as in Sattolo's algorithm
  (`Shuffle.ShuffleMovesAll`).
* `hd_quicksilver.rs:661-703`: a range proof aborts whenever `upper - lower` is a power of two, `[0, 1]` included: the
  least power of two that is not below it equals it, and a strict inequality is asserted. `RangeCheck.PrepareExact` says
  exactly which bounds are admitted.

## Model

| member | source | states |
|---|---|---|
| `Homcom.AddAuth` | diet-mac-and-cheese/src/homcom.rs:430-434 | adding on both sides keeps m = k + delta x |
| `Homcom.NegAuth` | diet-mac-and-cheese/src/homcom.rs:438-441 | negating on both sides keeps m = k + delta x |
| `Homcom.SubAuth` | diet-mac-and-cheese/src/homcom.rs:445-449 | subtracting on both sides keeps m = k + delta x |
| `Homcom.AddCstAuth` | diet-mac-and-cheese/src/homcom.rs:789-791 | adding a constant (prover: to the value; verifier: minus constant times delta) keeps the relation |
| `Homcom.MulCstAuth` | diet-mac-and-cheese/src/homcom.rs:795-797 | multiplying by a constant keeps the relation |
| `Homcom.DrawNCorrelated` | diet-mac-and-cheese/src/homcom.rs:352-368 | n draws from matching pools are authenticated pairs and leave matching pools, across any number of extensions |
| `Homcom.DeliveredSplit` | diet-mac-and-cheese/src/homcom.rs:352-368 | everything a supply delivers has a number, across extensions: m + n values from a number on are the first m and the n after them |
| `Homcom.InputAuth` | diet-mac-and-cheese/src/homcom.rs:776-785 | a random pair and the correction x - u give an authenticated x |
| `Homcom.FComProver.Random` | diet-mac-and-cheese/src/homcom.rs:352-368 | takes the last value of the pool, extending an empty pool first; counts one VOLE |
| `Homcom.FComProver.Input` | diet-mac-and-cheese/src/homcom.rs:384-400 | macs and corrections of the values, drawn in order; counts one VOLE per value |
| `Homcom.FComVerifier.Random` | diet-mac-and-cheese/src/homcom.rs:719-742 | the verifier's side of a draw |
| `Homcom.FComVerifier.Input` | diet-mac-and-cheese/src/homcom.rs:757-773 | all draws first, then every key is corrected by its correction times delta |
| `Homcom.FComProver.CheckZero` | diet-mac-and-cheese/src/homcom.rs:452-476 | sends the challenge-weighted sum of the macs; reports an error exactly when some value is not zero |
| `Homcom.FComVerifier.CheckZero` | diet-mac-and-cheese/src/homcom.rs:823-848 | accepts exactly when the weighted sum of the keys is the received mac |
| `Homcom.ZeroCheckExact` | diet-mac-and-cheese/src/homcom.rs:823-848 | on authenticated values the zero check accepts exactly when delta * sum(chi_i x_i) = 0, so always on zeros |
| `Homcom.FComProver.Open` | diet-mac-and-cheese/src/homcom.rs:479-502 | sends the values, then the macs weighted by challenges hashed from them |
| `Homcom.FComVerifier.Open` | diet-mac-and-cheese/src/homcom.rs:851-886 | accepts exactly when weighted keys plus delta times weighted values give the received mac |
| `Homcom.OpenExact` | diet-mac-and-cheese/src/homcom.rs:851-886 | true values are accepted; other values exactly when delta * sum(chi_i (x_i - true_i)) = 0 |
| `Homcom.RunInput` | diet-mac-and-cheese/src/homcom.rs:757-773 | both sides of an input: the values are authenticated, committed in order with the next numbered random values, and the pools still match; one VOLE per value |
| `Homcom.RunRandom` | diet-mac-and-cheese/src/homcom.rs:719-742 | both sides of a random draw hold the next numbered random value, authenticated, and the pools still match |
| `QuickSilver.TripleGap` | diet-mac-and-cheese/src/homcom.rs:889-929 | the two sides for one triple differ by exactly delta^2 (x y - z) |
| `QuickSilver.ListGap` | diet-mac-and-cheese/src/homcom.rs:889-929 | over a list they differ by exactly delta^2 * sum(chi^i (x_i y_i - z_i)) |
| `QuickSilver.MultiplyExact` | diet-mac-and-cheese/src/homcom.rs:889-929 | on authenticated triples and an authenticated mask the verifier accepts the honest message exactly when delta^2 * sum(chi^i (x_i y_i - z_i)) = 0 |
| `QuickSilver.CorrectTriplesAccepted` | diet-mac-and-cheese/src/homcom.rs:889-929 | correct triples pass for every challenge, every delta and every mask |
| `QuickSilver.FewChallengesAccept` | diet-mac-and-cheese/src/homcom.rs:889-929 | over a field with delta non-zero, an incorrect list of n triples passes for at most n challenges (honest final message) |
| `QuickSilver.FewDeltasAccept` | diet-mac-and-cheese/src/homcom.rs:889-929 | for a challenge that does not cancel the defects, any message (u, v) whatsoever is accepted for at most two deltas, with values and macs fixed |
| `QuickSilver.StateProver.Push` | diet-mac-and-cheese/src/homcom.rs:549-564 | the running sums and the running power cover exactly the pushed triples |
| `QuickSilver.StateProver.Finalize` | diet-mac-and-cheese/src/homcom.rs:567-594 | the message is the masked sums of everything pushed; the state starts over; one VOLE per basis element |
| `QuickSilver.StateVerifier.Push` | diet-mac-and-cheese/src/homcom.rs:932-946 | the verifier's running sum covers exactly the pushed triples |
| `QuickSilver.StateVerifier.Finalize` | diet-mac-and-cheese/src/homcom.rs:949-977 | decides by the masked equation over everything pushed; the state starts over |
| `QuickSilver.RunCheckMultiply` | diet-mac-and-cheese/src/homcom.rs:889-929 | a whole check by both parties sends the message about exactly these triples, masked with the next random values, and accepts exactly when delta^2 * sum(chi^i defect_i) = 0; the pools stay matched |
| `HdMacs.HDMacProver.GetValue` | diet-mac-and-cheese/src/hd_quicksilver.rs:17-23 | the value is the coefficient at the degree, zero when the polynomial is shorter |
| `HdMacs.HDMacProver.AddSubAssign` | diet-mac-and-cheese/src/hd_quicksilver.rs:41-56 | the polynomials are aligned at their degrees and added or subtracted coefficient by coefficient |
| `HdMacs.HDMacProver.AddAssignConstant` | diet-mac-and-cheese/src/hd_quicksilver.rs:66-69 | adds to the top coefficient only |
| `HdMacs.HDMacProver.SubAssignConstant` | diet-mac-and-cheese/src/hd_quicksilver.rs:71-74 | subtracts from the top coefficient only |
| `HdMacs.HDMacProver.MulAssign` | diet-mac-and-cheese/src/hd_quicksilver.rs:76-79 | the product of the full coefficient sequences, although zeros at the top are dropped before multiplying; degrees add |
| `HdMacs.HDMacProver.MulAssignConstant` | diet-mac-and-cheese/src/hd_quicksilver.rs:81-83 | scales every coefficient |
| `HdMacs.HDMacProver.XorAssign` | diet-mac-and-cheese/src/hd_quicksilver.rs:85-91 | a + b - 2ab on the polynomials |
| `HdMacs.HDMacVerifier.AddSubAssign` | diet-mac-and-cheese/src/hd_quicksilver.rs:140-162 | the key of smaller degree is raised by powers of delta |
| `HdMacs.HDMacVerifier.AddAssignConstant` | diet-mac-and-cheese/src/hd_quicksilver.rs:172-175 | adds constant * delta^degree |
| `HdMacs.HDMacVerifier.SubAssignConstant` | diet-mac-and-cheese/src/hd_quicksilver.rs:177-180 | subtracts constant * delta^degree |
| `HdMacs.HDMacVerifier.MulAssign` | diet-mac-and-cheese/src/hd_quicksilver.rs:182-185 | keys multiply, degrees add |
| `HdMacs.HDMacVerifier.XorAssign` | diet-mac-and-cheese/src/hd_quicksilver.rs:191-197 | a + b - 2ab on keys |
| `HdQuicksilver.FromMacAuth` | diet-mac-and-cheese/src/hd_quicksilver.rs:104-112 | a committed value gives a polynomial of degree one that evaluates to the verifier's key at delta |
| `HdQuicksilver.HdAddAuth` | diet-mac-and-cheese/src/hd_quicksilver.rs:41-60 | adding values of any two degrees keeps poly(delta) = mac, the degrees agree, the top coefficient is the sum |
| `HdQuicksilver.HdSubAuth` | diet-mac-and-cheese/src/hd_quicksilver.rs:41-64 | the same for subtraction |
| `HdQuicksilver.HdMulAuth` | diet-mac-and-cheese/src/hd_quicksilver.rs:76-79 | multiplication keeps poly(delta) = mac and multiplies the clear values |
| `HdQuicksilver.HdScaleAuth` | diet-mac-and-cheese/src/hd_quicksilver.rs:81-83 | scaling keeps poly(delta) = mac |
| `HdQuicksilver.HdAddCstAuth` | diet-mac-and-cheese/src/hd_quicksilver.rs:66-69 | adding a constant keeps poly(delta) = mac |
| `HdQuicksilver.HdSubCstAuth` | diet-mac-and-cheese/src/hd_quicksilver.rs:71-74 | subtracting a constant keeps poly(delta) = mac |
| `HdQuicksilver.HdXorAuth` | diet-mac-and-cheese/src/hd_quicksilver.rs:85-91 | xor keeps poly(delta) = mac; the clear value is x + y - 2xy |
| `HdQuicksilver.QsStateAuth` | diet-mac-and-cheese/src/hd_quicksilver.rs:233-238 | the accumulated states of the two parties belong together after any checks |
| `HdQuicksilver.QsStateValue` | diet-mac-and-cheese/src/hd_quicksilver.rs:233-238 | the accumulated clear value is the Horner combination of the checked values |
| `HdQuicksilver.MaskAuth` | diet-mac-and-cheese/src/hd_quicksilver.rs:423-457 | the verifier's mask is the prover's mask polynomial at delta, for any degree |
| `HdQuicksilver.QsExact` | diet-mac-and-cheese/src/hd_quicksilver.rs:412-421 | a check is accepted exactly when delta^d times the combination of the clear values is zero |
| `HdQuicksilver.QsComplete` | diet-mac-and-cheese/src/hd_quicksilver.rs:269-304 | checks of zeros are accepted whatever the mask and challenge |
| `HdQuicksilver.FewChallengesAccept` | diet-mac-and-cheese/src/hd_quicksilver.rs:412-421 | over a field with delta non-zero, n values that are not all zero pass for at most n challenges, with any mask per challenge |
| `HdQuicksilver.FewDeltasAccept` | diet-mac-and-cheese/src/hd_quicksilver.rs:412-421 | for a challenge that does not cancel the checked values, any proof polynomial that passes the degree test is accepted for at most as many deltas as the degree of the check |
| `HdMacs.QSStateProver.CheckZero` | diet-mac-and-cheese/src/hd_quicksilver.rs:233-238 | the state is the accumulation of everything checked so far, plus this value |
| `HdMacs.QSStateProver.CheckMult` | diet-mac-and-cheese/src/hd_quicksilver.rs:240-255 | checks a b - c |
| `HdMacs.QSStateProver.FinalizeWithMask` | diet-mac-and-cheese/src/hd_quicksilver.rs:257-267 | sends all coefficients but the vanishing top one, masked; the state starts over |
| `HdMacs.QSStateVerifier.CheckZero` | diet-mac-and-cheese/src/hd_quicksilver.rs:380-384 | the verifier's accumulation |
| `HdMacs.QSStateVerifier.CheckMult` | diet-mac-and-cheese/src/hd_quicksilver.rs:386-396 | the verifier's a b - c |
| `HdMacs.QSStateVerifier.FinalizeWithMaskAndVerify` | diet-mac-and-cheese/src/hd_quicksilver.rs:412-421 | accepts exactly when the proof at delta is mac plus mask |
| `HdMacs.BuildMask` | diet-mac-and-cheese/src/hd_quicksilver.rs:269-294 | the mask polynomial from (degree - 1) groups of draws |
| `HdMacs.BuildMaskKey` | diet-mac-and-cheese/src/hd_quicksilver.rs:423-449 | the verifier's mask from its draws |
| `HdMacs.RunFinalize` | diet-mac-and-cheese/src/hd_quicksilver.rs:269-304 | a run in which only zeros were checked is accepted; the message is that of the polynomials checked, masked with the next (degree - 1) * |basis| random values; the pools stay matched |
| `RangeCheck.Pow2RangeExact` | diet-mac-and-cheese/src/hd_quicksilver.rs:317-338 | v (v - 1) ... (v - (2^bits - 1)) vanishes exactly on the images of 0 .. 2^bits - 1 |
| `RangeCheck.ChunkedExact` | diet-mac-and-cheese/src/hd_quicksilver.rs:519-578 | for every width and chunk size, chunks that make all checked values vanish exist exactly when the element is below 2^bits |
| `RangeCheck.PrepareExact` | diet-mac-and-cheese/src/hd_quicksilver.rs:661-703 | exactly which bounds the asserts admit: inside the middle of the field, with room for the next power of two, and with a distance that is not a power of two |
| `RangeCheck.PrepareMeans` | diet-mac-and-cheese/src/hd_quicksilver.rs:661-703 | what the prepared bit count and shifts mean, under the asserts |
| `RangeCheck.SignedRangeExact` | diet-mac-and-cheese/src/hd_quicksilver.rs:661-703 | both shifts are below 2^m exactly when the element lies in [lower, upper]; nothing wraps around |
| `RangeCheck.RangeProofExact` | diet-mac-and-cheese/src/hd_quicksilver.rs:661-745 | for all admitted bounds and every chunk size, commitments that make every check vanish exist exactly when the element represents an integer in [lower, upper] |
| `RangeLists.CheckedMean` | diet-mac-and-cheese/src/hd_quicksilver.rs:519-578 | for arbitrary committed chunks the two parties' lists of checks, in the program's order, belong together, and all of them vanish exactly when recompositions and products vanish for each value by itself |
| `RangeLists.FewChallengesAcceptChunks` | diet-mac-and-cheese/src/hd_quicksilver.rs:519-578 | with delta non-zero and any committed chunks, a list with a value not below 2^bits passes for at most as many challenges as there are checks |
| `RangeLists.FewChallengesAcceptRange` | diet-mac-and-cheese/src/hd_quicksilver.rs:661-745 | the same for signed bounds: a list with a value outside [lower, upper] passes for at most as many challenges as there are checks |
| `RangeCheck.ProverCheckPow2Range` | diet-mac-and-cheese/src/hd_quicksilver.rs:317-338 | accumulates the product over the range |
| `RangeCheck.VerifierCheckPow2Range` | diet-mac-and-cheese/src/hd_quicksilver.rs:398-410 | the verifier's product |
| `RangeCheck.ProverRecombine` | diet-mac-and-cheese/src/hd_quicksilver.rs:554-566 | the value minus the weighted chunks |
| `RangeCheck.VerifierRecombine` | diet-mac-and-cheese/src/hd_quicksilver.rs:631-643 | the verifier's side of it |
| `RangeRun.RunPow2Ranges` | diet-mac-and-cheese/src/hd_quicksilver.rs:487-578 | a list of values run by both parties: accepted exactly when all are below 2^bits; the message is about exactly the listed checks of the values and their committed chunks; exact VOLE count |
| `RangeRun.RunChunked` | diet-mac-and-cheese/src/hd_quicksilver.rs:552-578 | with chunks, what the parties accumulate is exactly the two lists of CheckedMean; honest chunks pass exactly for values below 2^bits |
| `RangeRun.RunRangesOf` | diet-mac-and-cheese/src/hd_quicksilver.rs:487-516 | without chunks, one product per value, in order, on both sides; passes exactly for values below 2^bits |
| `RangeRun.RunCheckRange` | diet-mac-and-cheese/src/hd_quicksilver.rs:705-745 | refused for bounds the asserts do not admit; otherwise accepted exactly when every value represents an integer in [lower, upper]; the message is about both shifts of every value; exact VOLE count |
| `Backend.DmcProver.AssertZero` | diet-mac-and-cheese/src/backend.rs:245-259 | queues; flushes when the queue is full or batching is off; errors exactly when a flushed value is not zero, and always after an error |
| `Backend.DmcProver.Mul` | diet-mac-and-cheese/src/backend.rs:269-281 | commits to the product and queues the triple; refused after an error |
| `Backend.DmcProver.InputPrivate` | diet-mac-and-cheese/src/backend.rs:308-312 | commits to the value; refused after an error |
| `Backend.DmcProver.LocalGate` | diet-mac-and-cheese/src/backend.rs:262-305 | the gates that send nothing; public inputs are not refused after an error, the others are |
| `Backend.DmcProver.DoCheckZero` | diet-mac-and-cheese/src/backend.rs:229-243 | the whole queue is checked and emptied, whatever the outcome |
| `Backend.DmcVerifier.AssertZero` | diet-mac-and-cheese/src/backend.rs:467-481 | the verifier's queue, flushed at the same moments |
| `Backend.DmcVerifier.Mul` | diet-mac-and-cheese/src/backend.rs:495-507 | the verifier's side of a product |
| `Backend.LocalAuth` | diet-mac-and-cheese/src/backend.rs:484-535 | every gate that sends nothing keeps m = k + delta x with x the gate's clear value, public inputs and challenges included |
| `Backend.RunFlush` | diet-mac-and-cheese/src/backend.rs:450-465 | a flush sends the combined mac of exactly the queued wires and reports an error exactly when something asserted is not zero; if not, the verifier accepts |
| `Backend.RunMultCheck` | diet-mac-and-cheese/src/backend.rs:438-448 | the multiplication check of an honest prover always passes, on a message about exactly the products queued |
| `Backend.RunGate` | diet-mac-and-cheese/src/backend.rs:245-331 | one gate by both parties, for any state of the queues: wires with their macs, both queues, VOLEs and messages are those of the reference step |
| `Backend.RunProgram` | diet-mac-and-cheese/src/backend.rs:467-560 | over every program and any flushing: an error exactly when an asserted wire is not zero; otherwise the verifier accepts everything, every wire holds its clear value under a valid mac, and the wires, all messages in order and the VOLEs used are those of the reference run of the gates |
| `Comparator.ScanMeans` | diet-mac-and-cheese/src/backend_multifield.rs:244-290 | after i positions act says that the high parts agree and r that a's is larger |
| `Comparator.ComparesExactly` | diet-mac-and-cheese/src/backend_multifield.rs:244-294 | for any length the recurrence ends with r = 0 exactly when a <= b |
| `Comparator.CanonicalBits` | diet-mac-and-cheese/src/backend_multifield.rs:316-350 | against p - 1, consistent bits that pass are exactly the canonical decomposition of the value |
| `Comparator.SecondDecomposition` | diet-mac-and-cheese/src/backend_multifield.rs:316-350 | without the comparison, the bits of x + p are a second decomposition of x |
| `Comparator.RunLessEq` | diet-mac-and-cheese/src/backend_multifield.rs:244-294 | both parties: the wire asserted is the last one of the recurrence on wires and macs, its products are exactly those queued, three per position, and it is zero exactly when a <= b, whatever bits were committed |
| `Comparator.RunConvToBits` | diet-mac-and-cheese/src/backend_multifield.rs:316-350 | hands on the canonical bits, committed with the next random values, which form a consistent edaBit with the wire; what is queued and asserted is the comparison of exactly these bits with p - 1 |
| `Comparator.RunConvFromBits` | diet-mac-and-cheese/src/backend_multifield.rs:352-398 | committed and public bits give a wire that forms a consistent edaBit with them; for each public bit exactly the sum of its committed wire and itself is asserted |
| `Bits.ConvertBitsToField` | diet-mac-and-cheese/src/mpc_edabits_common.rs:35-42 | the field element of the bits' integer value |
| `Bits.RippleCarryExact` | diet-mac-and-cheese/src/edabits.rs:371-464 | sum bits plus 2^n * carry are exactly the two numbers' sum, for every length |
| `Bits.BitsValueInjective` | diet-mac-and-cheese/src/mpc_edabits_common.rs:35-42 | bits of a given length are determined by the number they stand for |
| `Bits.AdderModulo` | diet-mac-and-cheese/src/mpc_edabits_common.rs:658-703 | the sum bits are the sum modulo 2^n, the carry its quotient |
| `Bits.DiscrepanciesAdd` | diet-mac-and-cheese/src/mpc_original_edabits.rs:384-448 | after adding and correcting the carry, the discrepancies of the two edaBits add up |
| `Shares.AddShared` | diet-mac-and-cheese/src/mpc_edabits_common.rs:141-157 | adding shares on both peers adds the shared values and keeps both mac directions |
| `Shares.AddConstShared` | diet-mac-and-cheese/src/mpc_edabits_common.rs:159-181 | the constant is added by one peer only, both mac directions stay valid |
| `Shares.NegShared` | diet-mac-and-cheese/src/mpc_edabits_common.rs:183-187 | negation of a shared value |
| `Shares.ScaleShared` | diet-mac-and-cheese/src/mpc_edabits_common.rs:619-656 | scaling a shared value by an opened one |
| `Shares.RunOpen` | diet-mac-and-cheese/src/mpc_edabits_common.rs:213-293 | both peers accept and both learn the shared values |
| `Shares.RunShareOwned` | diet-mac-and-cheese/src/mpc_edabits_common.rs:295-328 | the owner's values end up shared, authenticated in both directions: its shares are the given randoms and the other peer's the differences, committed with each peer's next random values |
| `Shares.RunShareOwnerZero` | diet-mac-and-cheese/src/mpc_edabits_common.rs:330-384 | the owner's shares are the values themselves, committed with its next random values, the other peer's are literal zero shares; together they encode the values and both mac directions are valid |
| `MpcCombine.MaskedProduct` | diet-mac-and-cheese/src/mpc_edabits_common.rs:619-656 | with c = ab and the openings x + a and y + b the combination is xy |
| `MpcCombine.RunMultiply` | diet-mac-and-cheese/src/mpc_edabits_common.rs:619-656 | shared products of shared bits, both mac directions valid; what is opened are the factors masked by the triples |
| `MpcCombine.RunAdder` | diet-mac-and-cheese/src/mpc_edabits_common.rs:658-703 | the ripple-carry adder over shares computes sum bits and carry of every row; column by column, what is opened are its factors masked by its own slice of triples |
| `MpcCombine.RunConvert` | diet-mac-and-cheese/src/mpc_edabits_common.rs:705-730 | the carry bits become shared field values; what is opened are the carries masked by the daBits |
| `MpcCombine.RowCombined` | diet-mac-and-cheese/src/mpc_edabits_common.rs:756-790 | the adder's row with 2^k times the carry taken off the summed value: the result's bits are the sum modulo 2^k, and its discrepancy is the sum of the two inputs' discrepancies |
| `MpcCombine.CombinedConsistent` | diet-mac-and-cheese/src/mpc_edabits_common.rs:807-846 | consistent inputs for x and y give the binary form of (x + y) mod 2^k and that number as value |
| `MpcEdabits.RunSharedTriples` | diet-mac-and-cheese/src/mpc_edabits_common.rs:524-576 | the shared triples are those of the owner's next random values, proved by a message about exactly them; both mac directions are valid |
| `MpcEdabits.RunSharedDabits` | diet-mac-and-cheese/src/mpc_edabits_common.rs:578-617 | the shared daBits are those of the owner's next random values, and the check is run on exactly them; refused exactly when the daBit check does not admit their number |
| `MpcEdabits.RunCombine` | diet-mac-and-cheese/src/mpc_edabits_common.rs:807-846 | the whole combination over any batch and bit size: bits, values and both mac directions of every result; what is proved and opened is determined by the two batches and the first peer's next random values; fails exactly when the daBit check does not admit the number |
| `MpcEdabits.CombinedResult` | diet-mac-and-cheese/src/mpc_edabits_common.rs:792-805 | a combined edaBit opens to a function of the clear inputs alone |
| `MpcEdabits.ConsistentResult` | diet-mac-and-cheese/src/mpc_edabits_common.rs:807-846 | for consistent inputs that function gives the binary form of the sum modulo 2^k and that number as the value |
| `MpcEdabits.RunOpenEdabits` | diet-mac-and-cheese/src/mpc_edabits_common.rs:848-869 | both peers see the same bits and value |
| `MpcEdabits.RunSharePrivate` | diet-mac-and-cheese/src/mpc_edabits.rs:107-223 | under the random policy the owner's local values are the given randoms, under the zero policy it holds the edaBits and the other peer literal zeros; either way the shares encode the clear edaBits, authenticated in both directions |
| `MpcEdabits.RunFromClear` | diet-mac-and-cheese/src/mpc_edabits.rs:107-223 | fixed clear inputs give the same opened result under both sharing policies |
| `MpcEdabits.RunSample` | diet-mac-and-cheese/src/mpc_edabits.rs:225-256 | the owner's edaBits consist of its next random bits, row by row, and their numbers; consistent, and shared under the policy |
| `MpcEdabits.RunProve` | diet-mac-and-cheese/src/mpc_edabits.rs:532-576 | the owner's proof of exactly these edaBits succeeds exactly when the daBit check admits the number; exact VOLE counts |
| `MpcEdabits.RunGenerate` | diet-mac-and-cheese/src/mpc_edabits.rs:632-645 | end to end under either policy: it succeeds exactly when both daBit checks admit their numbers; at position i both peers then open the sum modulo 2^k of the i-th rows of random bits that the two peers drew; each peer's proof is about the edaBits it drew; both stocks are left where the counts say |
| `Fdabit.NoWraparound` | diet-mac-and-cheese/src/edabits.rs:125-156 | for every n that the parameter check accepts, n + 2^gamma - 1 < p |
| `Fdabit.ParametersExact` | diet-mac-and-cheese/src/edabits.rs:125-156 | exactly which numbers of masking bits are refused for a number of daBits: both bit lengths together must leave room below the modulus |
| `Fdabit.AdmittedExactly` | diet-mac-and-cheese/src/edabits.rs:625-627 | with the masking bits the check takes, n daBits are admitted exactly when 2^(2 gamma) < p, gamma being the bit length of n + 1 |
| `Fdabit.ParityExact` | diet-mac-and-cheese/src/edabits.rs:615-807 | a row of bit-valued daBits passes exactly when it selects an even number of mismatched ones |
| `Fdabit.ConsistentPass` | diet-mac-and-cheese/src/edabits.rs:615-807 | consistent daBits pass for every selection |
| `FdabitRun.RunFdabit` | diet-mac-and-cheese/src/edabits.rs:615-807 | the whole check: refused for too many daBits; otherwise everything committed, opened and sent is that of the reference for these daBits, and it accepts exactly when every selection hits an even number of mismatches; exact VOLE counts |
| `Shuffle.GeneratePermutation` | diet-mac-and-cheese/src/edabits.rs:111-123 | the in-place loop computes the shuffle function of the drawn indices (drawn from [0, i)) |
| `Shuffle.ShuffleReindexes` | diet-mac-and-cheese/src/mpc_original_edabits.rs:21-32 | the result is the input reindexed by a permutation that depends on draws and length only |
| `Shuffle.OriginInjective` | diet-mac-and-cheese/src/edabits.rs:111-123 | no two positions receive the same element, so the reindexing is a permutation |
| `Shuffle.ShuffleAligned` | diet-mac-and-cheese/src/mpc_original_edabits.rs:473-480 | lists that agree position by position still agree after a shuffle with the same seed |
| `Shuffle.ShuffledElements` | diet-mac-and-cheese/src/mpc_original_edabits.rs:21-32 | no element is lost or added |
| `Shuffle.ShuffleMovesAll` | diet-mac-and-cheese/src/mpc_original_edabits.rs:21-32 | because the index is drawn from [0, i), every element ends up somewhere else, so not every permutation occurs |
| `EdabitConversion.RunBitAddCarry` | diet-mac-and-cheese/src/edabits.rs:371-464 | the batched adder by both parties: sum bits and carries of every row, carries committed with the next random values; the message is about exactly the products of the adder; exact VOLE count |
| `EdabitConversion.ConvertExact` | diet-mac-and-cheese/src/edabits.rs:328-365 | with a consistent daBit the converted value is the converted bit |
| `EdabitConversion.RunConvertBits` | diet-mac-and-cheese/src/edabits.rs:328-365 | both parties open the bit masked by its daBit and convert; for consistent daBits the result is the bit |
| `EdabitConversion.FinalValue` | diet-mac-and-cheese/src/edabits.rs:809-881 | the checked value is the sum of the tuple's and the partner's discrepancies |
| `EdabitConversionRun.RunConvLoop` | diet-mac-and-cheese/src/edabits.rs:809-881 | one bucket pass: the verifier accepts exactly when delta times the weighted discrepancy sums is zero, the prover sees an error exactly when some sum is not zero; all that is opened and sent is about these tuples, partners and daBits |
| `EdabitConversionRun.OnePartnerIsEnough` | diet-mac-and-cheese/src/edabits.rs:945-962 | if all pair sums vanish, one consistent partner makes the tuple and all partners consistent |
| `EdabitConversionRun.ConsistentAccepted` | diet-mac-and-cheese/src/edabits.rs:945-962 | consistent tuples are accepted for all challenges |
| `EdabitConversionRun.RunOpenCut` | diet-mac-and-cheese/src/edabits.rs:931-938 | everything in the opened part is shown, and it is accepted exactly when all its edaBits are consistent |
| `EdabitConversionRun.RunRandomEdabits` | diet-mac-and-cheese/src/edabits.rs:497-512 | generated edaBits consist of the next random bits and their numbers, authenticated and consistent |
| `EdabitConversionRun.RunRandomDabits` | diet-mac-and-cheese/src/edabits.rs:555-581 | generated daBits consist of the next random bits and their numbers, authenticated and consistent |
| `EdabitConversionRun.RunConv` | diet-mac-and-cheese/src/edabits.rs:884-1027 | conv on any authenticated tuples: exact acceptance; shuffle, cut, partners and daBits of every bucket are those the drawn indices give; on acceptance exactly the VOLEs of the estimate |
| `MpcOriginalEdabits.RunOpenAndCheck` | diet-mac-and-cheese/src/mpc_original_edabits.rs:329-355 | all edaBits are shown, and it accepts exactly when every one is consistent |
| `MpcOriginalEdabits.RunOpenTriples` | diet-mac-and-cheese/src/mpc_original_edabits.rs:357-382 | all triples are shown, and it accepts exactly when every one is a product |
| `MpcOriginalEdabits.RunBucketPairs` | diet-mac-and-cheese/src/mpc_original_edabits.rs:384-448 | with correct triples and generated daBits a bucket passes exactly when the discrepancies of its first member and every other one cancel; what is opened is about these pairs, triples and drawn daBits |
| `MpcOriginalEdabits.InconsistentTogether` | diet-mac-and-cheese/src/mpc_original_edabits.rs:384-448 | in a bucket that passes, one consistent member makes all consistent: the output is inconsistent only if every member is |
| `MpcOriginalEdabits.TogetherWhenCancelling` | diet-mac-and-cheese/src/mpc_original_edabits.rs:384-448 | what cancelling means for every bucket of a run: its first member is consistent exactly when any member is |
| `MpcOriginalEdabits.RunSplitTriples` | diet-mac-and-cheese/src/mpc_original_edabits.rs:482-507 | the triples are shuffled by both peers from one seed; cut and buckets are consecutive parts of the shuffled list, with the counts the checks consume, and the halves still belong together |
| `MpcOriginalEdabits.OwnerShuffle` | diet-mac-and-cheese/src/mpc_original_edabits.rs:471-480 | the private copies and the shares stay aligned under the two shuffles from one seed |
| `MpcOriginalEdabits.FirstsAligned` | diet-mac-and-cheese/src/mpc_original_edabits.rs:492-507 | bucketing private copies and shares gives the same outputs |
| `MpcOriginalEdabits.NothingLost` | diet-mac-and-cheese/src/mpc_original_edabits.rs:482-507 | each element lands in exactly one cut or bucket |
| `MpcOriginalEdabits.RunCutAndChoose` | diet-mac-and-cheese/src/mpc_original_edabits.rs:450-547 | for arbitrary authenticated edaBits and correct triples: cut and buckets are consecutive parts of the lists shuffled with the drawn indices; accepted exactly when the cut is consistent, the daBit check admits the number and the discrepancies of every bucket cancel; the outputs are the aligned bucket firsts, private copies included, and one is inconsistent only if its whole bucket is |
| `WirePool.FloorKey` | diet-mac-and-cheese/src/memory.rs:191-214 | the chunk that starts last at or before the wire |
| `WirePool.Pool.Present` | diet-mac-and-cheese/src/memory.rs:191-214 | through the cache or the tree: exactly whether some chunk holds the wire |
| `WirePool.Pool.GetPtr` | diet-mac-and-cheese/src/memory.rs:240-254 | the address in the one chunk that holds the wire, whatever the cache held |
| `WirePool.Pool.Get` | diet-mac-and-cheese/src/memory.rs:225-238 | the value of the plain wire-to-value map |
| `WirePool.Pool.Set` | diet-mac-and-cheese/src/memory.rs:256-269 | changes that wire of the plain map and no other |
| `WirePool.Pool.Insert` | diet-mac-and-cheese/src/memory.rs:271-277 | adds one chunk; the cache is invalidated |
| `WirePool.Pool.Remove` | diet-mac-and-cheese/src/memory.rs:279-282 | takes one chunk out; the cache is invalidated |
| `WireEnvironment.CalleeWriteIsVisible` | diet-mac-and-cheese/src/memory.rs:862-1056 | in the plain environment a callee's write to an argument is what the caller reads, before and after the return |
| `WireLayout.LocInjective` | diet-mac-and-cheese/src/memory.rs:773-857 | different wires never share an address, across frames, vectors, chunks and unallocated slots |
| `WireLayout.SetRefines` | diet-mac-and-cheese/src/memory.rs:812-857 | writing at a wire's address is setting that wire, under whatever name |
| `WireLayout.GetRefines` | diet-mac-and-cheese/src/memory.rs:773-810 | reading at a wire's address gives its value |
| `WireLayout.AddChunkRefines` | diet-mac-and-cheese/src/memory.rs:1058-1063 | a fresh chunk moves no wire that is in use |
| `WireLayout.PushRefines` | diet-mac-and-cheese/src/memory.rs:588-660 | entering a frame keeps every live wire and adds an empty one |
| `WireLayout.PopRefines` | diet-mac-and-cheese/src/memory.rs:662-677 | leaving a frame forgets its wires and keeps all others, with whatever the callee wrote |
| `WireLayout.RemoveChunkRefines` | diet-mac-and-cheese/src/memory.rs:279-282 | removing a whole chunk forgets exactly its wires |
| `WireLayout.PushArgsRefines` | diet-mac-and-cheese/src/memory.rs:862-1056 | appending the slice's addresses to the callee's arguments makes them names of the caller's wires |
| `WireLayout.DeleteSplits` | diet-mac-and-cheese/src/memory.rs:1065-1080 | deleting chunk after chunk is deleting the whole tiled range |
| `WireFrames.SearchAppend` | diet-mac-and-cheese/src/memory.rs:342-363 | a new element is found after those that cover the wire already |
| `WireFrames.AppendedList` | diet-mac-and-cheese/src/memory.rs:442-499 | outputs and inputs appended to the slice lists are found under the next argument numbers |
| `WireFrames.AppendedVector` | diet-mac-and-cheese/src/memory.rs:885-903 | the vector call frame holds the slice's addresses at the next argument numbers |
| `WireFrames.PassedOn` | diet-mac-and-cheese/src/memory.rs:883-926 | case 1: an argument passed on keeps the address it had |
| `WireFrames.InVector` | diet-mac-and-cheese/src/memory.rs:927-960 | case 2: vector wires lie one after the other |
| `WireFrames.InPool` | diet-mac-and-cheese/src/memory.rs:965-1028 | case 3: wires of one chunk lie one after the other |
| `WireFrames.InSlot` | diet-mac-and-cheese/src/memory.rs:1029-1054 | case 4: a single unallocated wire |
| `WireMemory.Memory.constructor` | diet-mac-and-cheese/src/memory.rs:581-586 | one empty pool frame, refining the initial environment |
| `WireMemory.Memory.PushFrame` | diet-mac-and-cheese/src/memory.rs:588-660 | enters a frame of the plain environment, for all four mixes of vector and list, across reuse and the periodic renewal |
| `WireMemory.Memory.Tick` | diet-mac-and-cheese/src/memory.rs:552-569 | below a hundred uses only the counter changes; at a hundred everything is renewed and the memory frame is a pool |
| `WireMemory.Memory.PopFrame` | diet-mac-and-cheese/src/memory.rs:662-677 | leaves the frame of the plain environment; oversized call frames are dropped |
| `WireMemory.Memory.Get` | diet-mac-and-cheese/src/memory.rs:773-810 | the value of the wire that the name stands for |
| `WireMemory.Memory.Set` | diet-mac-and-cheese/src/memory.rs:812-857 | sets exactly the wire that the name stands for |
| `WireMemory.Memory.AllocateSlice` | diet-mac-and-cheese/src/memory.rs:862-1056 | passes the caller's wires as the callee's next arguments, in all four cases and both forms of call frame |
| `WireMemory.Memory.AllocationNew` | diet-mac-and-cheese/src/memory.rs:1058-1063 | allocates a range |
| `WireMemory.Memory.AllocationDelete` | diet-mac-and-cheese/src/memory.rs:1065-1080 | terminates having freed exactly the range, for ranges tiled by chunks |
| `WireProgram.RunProgram` | diet-mac-and-cheese/src/memory.rs:581-1080 | over every well-formed run each get returns the last value written to the wire through any alias |
| `CheddaPrg.ExpandTspaProver2` | diet-mac-and-cheese/src/cheddaprg.rs:99-119 | the binary TSPA polynomial of the picked seed values |
| `CheddaPrg.ExpandTspaProverP` | diet-mac-and-cheese/src/cheddaprg.rs:121-148 | the prime-field TSPA polynomial |
| `CheddaPrg.ExpandTspaVerifier2` | diet-mac-and-cheese/src/cheddaprg.rs:150-171 | the verifier's binary TSPA key |
| `CheddaPrg.ExpandTspaVerifierP` | diet-mac-and-cheese/src/cheddaprg.rs:173-202 | the verifier's prime-field TSPA key |
| `CheddaPrg.TspaAgrees` | diet-mac-and-cheese/src/cheddaprg.rs:88-89 | on matching bits the two TSPA formulas carry the same bit |
| `CheddaMaj7.MajProver2` | diet-mac-and-cheese/src/cheddaprg.rs:205-224 | the nested loops add every product of four of the seven values once |
| `CheddaMaj7.MajVerifier2` | diet-mac-and-cheese/src/cheddaprg.rs:225-244 | the verifier's nested loops |
| `CheddaMaj7.MajorityBit` | diet-mac-and-cheese/src/cheddaprg.rs:205-224 | over GF(2) that sum is the majority of the seven bits |
| `CheddaMaj7.MajorityPolynomial` | diet-mac-and-cheese/src/cheddaprg.rs:249-250 | modulo 2^61 - 1 the polynomial sends 0..3 to 0 and 4..7 to 1 |
| `CheddaMaj7.MajProverP` | diet-mac-and-cheese/src/cheddaprg.rs:253-273 | Horner's rule in the sum of the seven values |
| `CheddaMaj7.MajVerifierP` | diet-mac-and-cheese/src/cheddaprg.rs:275-296 | the verifier's Horner's rule |
| `CheddaMaj7.MajHdP` | diet-mac-and-cheese/src/cheddaprg.rs:253-296 | carries the majority bit at degree exactly 8 |
| `CheddaMaj7.ExpandX4Prover2` | diet-mac-and-cheese/src/cheddaprg.rs:311-322 | the binary xor-majority polynomial |
| `CheddaMaj7.ExpandX4ProverP` | diet-mac-and-cheese/src/cheddaprg.rs:324-335 | the prime-field xor-majority polynomial |
| `CheddaMaj7.ExpandX4Verifier2` | diet-mac-and-cheese/src/cheddaprg.rs:337-352 | the verifier's binary key |
| `CheddaMaj7.ExpandX4VerifierP` | diet-mac-and-cheese/src/cheddaprg.rs:354-370 | the verifier's prime-field key |
| `CheddaMaj7.X4Agrees` | diet-mac-and-cheese/src/cheddaprg.rs:299-299 | on matching bits the two xor-majority formulas carry the same bit |
| `CheddaChecks.OutputsAgree` | diet-mac-and-cheese/src/cheddaprg.rs:98-370 | for matching seed bits, any index tuple and any deltas: same bit in both fields, degrees exactly D2 and DP on both sides, polynomial at delta is the mac |
| `CheddaChecks.LocalPrg.NextProver` | diet-mac-and-cheese/src/cheddaprg.rs:471-482 | none exactly when all outputs are used up; otherwise the expansion of the next index tuple |
| `CheddaChecks.LocalPrg.NextVerifier` | diet-mac-and-cheese/src/cheddaprg.rs:510-524 | the verifier's next output |
| `CheddaChecks.RunCheckZero` | diet-mac-and-cheese/src/hd_quicksilver.rs:380-384 | one more vanishing value checked by both parties keeps their states together, and exactly it joins the lists of what is checked |
| `CheddaChecks.RunFinish` | diet-mac-and-cheese/src/hd_quicksilver.rs:423-457 | checks of vanishing values are accepted, on a message about exactly what was checked; (degree - 1) VOLEs per basis element are used |
| `CheddaBits.AdjustMask` | diet-mac-and-cheese/src/cheddabits.rs:137-140 | the sampled mask with the binary mask as lowest bit |
| `CheddaBits.NoReduction` | diet-mac-and-cheese/src/cheddabits.rs:46-48 | for every n that passes the check nothing is reduced modulo p, and a row passes exactly when its sum stays in the range |
| `CheddaBits.EveryChallenge` | diet-mac-and-cheese/src/cheddabits.rs:182-187 | an honest row passes for every challenge exactly when the adjusted mask is at least n and leaves room for all bits |
| `CheddaBits.SafeFits` | diet-mac-and-cheese/src/cheddabits.rs:136-187 | sampled masks above n and more than n + 1 below the upper end pass whatever the challenge |
| `CheddaBits.RowExact` | diet-mac-and-cheese/src/cheddabits.rs:358-366 | for any mask a prover picks, the lower bound excludes wrap-around: a row passes exactly when the integer sum is in range and the mismatches are even in number |
| `CheddaBits.HalvingExact` | diet-mac-and-cheese/src/cheddabits.rs:187-195 | multiplying by 1/2: even sums are halved, odd ones land half the modulus higher |
| `CheddaBits.HalvedSum` | diet-mac-and-cheese/src/cheddabits.rs:187-195 | with the honest parity the result is exactly ceil(S / 2), for every n that passes the check |
| `CheddaBits.WrongParity` | diet-mac-and-cheese/src/cheddabits.rs:187-195 | with the wrong parity it is above p / 2 |
| `CheddaBits.RunDabits` | diet-mac-and-cheese/src/cheddabits.rs:114-131 | generated daBits consist of the next random bits and their numbers, consistent and authenticated |
| `CheddaBits.RunMasksV1` | diet-mac-and-cheese/src/cheddabits.rs:133-152 | masks made of the next random bits, whose lowest bit is the binary mask |
| `CheddaBits.RunRowsV1` | diet-mac-and-cheese/src/cheddabits.rs:338-366 | every row's masked sums are opened in both fields; accepts exactly when every row passes, for bit-valued daBits and any masks |
| `CheddaBits.BinaryTriple` | diet-mac-and-cheese/src/cheddabits.rs:215-227 | d (1 - d) = 0 holds exactly for 0 and 1 |
| `CheddaBits.RunGenDabitsV1` | diet-mac-and-cheese/src/cheddabits.rs:94-230 | version 1 by both parties: consistent daBits of the next random bits; rows, masks and the message about the bits are those of the reference; fails exactly when a sampled mask lets a sum leave the range; the estimated VOLEs |
| `CheddaBitsV2.RunRowsV2` | diet-mac-and-cheese/src/cheddabits.rs:338-388 | accepts exactly when the bounds are admitted and every halved total lies between them; the range proof is about exactly the halved totals |
| `CheddaBitsV2.EstimateV2Exact` | diet-mac-and-cheese/src/cheddabits.rs:240-256 | the estimate's range-proof part is what the range proof takes |
| `CheddaBitsV2.RunGenDabitsV2` | diet-mac-and-cheese/src/cheddabits.rs:292-405 | version 2 by both parties: consistent daBits of the next random bits, exact acceptance, all messages those of the reference, the estimated VOLEs |
| `CheddaConv.DifferenceExact` | diet-mac-and-cheese/src/cheddaconv.rs:288-295 | the checked binary value is zero exactly when the correction is bit xor daBit |
| `CheddaConv.ConversionExact` | diet-mac-and-cheese/src/cheddaconv.rs:261-318 | given agreeing daBits, all checked values are zero exactly when every correction is right and every tuple's value is that of its bits mod p |
| `CheddaLists.TupleMean` | diet-mac-and-cheese/src/cheddaconv.rs:288-295 | for any corrections sent, the two parties' binary checks of a tuple belong together, and all of them vanish exactly when every correction is the bit xor its daBit |
| `CheddaLists.RemainderMean` | diet-mac-and-cheese/src/cheddaconv.rs:297-314 | for any corrections sent, the check of a tuple's value belongs together on both sides, at its exact degree, and carries the value minus the corrected daBits |
| `CheddaLists.BatchExact` | diet-mac-and-cheese/src/cheddaconv.rs:261-318 | for any corrections sent, the lists checked in the two fields over a whole batch vanish together exactly when every correction is right and every tuple is consistent |
| `CheddaLists.FewChallengesAcceptConversions` | diet-mac-and-cheese/src/cheddaconv.rs:261-318 | with both keys non-zero, a wrong correction or an inconsistent tuple passes the binary check for at most n * k challenges or the one in the prime field for at most n, with any masks |
| `CheddaConv.ReseedsExact` | diet-mac-and-cheese/src/cheddaconv.rs:328-330 | n bits from a fresh generator take exactly ceil(n / (output - seed)) expansions |
| `CheddaConv.RunReseed` | diet-mac-and-cheese/src/cheddaconv.rs:138-191 | reseeding always finds its outputs, is accepted and starts the generator over: the new seeds are the outputs held back, committed with the next random values, and the messages prove exactly that; both parties stay in step |
| `CheddaConv.RunFirstSeed` | diet-mac-and-cheese/src/cheddaconv.rs:133-136 | the first seed consists of the next random bits themselves and of their numbers, committed next to them, and does not reset the generator |
| `CheddaConv.RunGenSeed` | diet-mac-and-cheese/src/cheddaconv.rs:128-194 | the two ways to a seed, each with the seeds it sets, what it sends and its price |
| `CheddaConv.RunGenDabit` | diet-mac-and-cheese/src/cheddaconv.rs:211-225 | from every reachable state with a seed a daBit is delivered: it is the next bit of the reference stream with the polynomials of the reference feed, the last seed-length outputs of an expansion are held back as the next seed, and a reseeding costs its exact VOLEs |
| `CheddaConv.RunGenDabits` | diet-mac-and-cheese/src/cheddaconv.rs:252-255 | n daBits are exactly the next n bits of the reference stream of the current seed and position, polynomials included, with exactly the reseedings of the state machine, their messages and their VOLEs on both sides |
| `CheddaConv.OutputIs` | diet-mac-and-cheese/src/cheddaprg.rs:471-524 | an output of the reference stream is the expansion of the seed bits its index tuple picks |
| `CheddaConv.RunNext` | diet-mac-and-cheese/src/cheddaprg.rs:471-524 | both generators deliver output number count of the reference stream with matching macs in both fields, expanded from the current seeds |
| `CheddaConv.RunMakeRoom` | diet-mac-and-cheese/src/cheddaconv.rs:211-225 | afterwards there is an output to give; the seeds are replaced by the outputs held back exactly when only those are left |
| `CheddaConv.RunNextSeed` | diet-mac-and-cheese/src/cheddaconv.rs:128-194 | a reseeding as seen from the stream and the feed: the next seeds are the outputs held back, committed and proved |
| `CheddaConvRun.GenPowersOfTwo` | diet-mac-and-cheese/src/cheddaconv.rs:26-37 | at least k powers of two |
| `CheddaConvRun.RunCorrection` | diet-mac-and-cheese/src/cheddaconv.rs:288-295 | one correction: what joins the lists of both parties is daBit + committed bit + correction |
| `CheddaConvRun.RunTuple` | diet-mac-and-cheese/src/cheddaconv.rs:285-315 | the prover's assertion about a tuple holds exactly when it is consistent; what joins the lists of both parties in the two fields are exactly the corrections of its bits and its value minus the corrected daBits |
| `CheddaConvRun.RunTuples` | diet-mac-and-cheese/src/cheddaconv.rs:284-315 | all tuples of a batch: the prover's assertions hold exactly when every tuple is consistent; the corrections are right, and everything checked by both parties is exactly the lists of BatchExact |
| `CheddaConvRun.RunVerifyConversions` | diet-mac-and-cheese/src/cheddaconv.rs:236-321 | from any reachable state: accepted exactly when every tuple is consistent (given a first seed whose masks fit, if one is needed); the corrections and the messages are about exactly these tuples and the next daBits of the reference feed; an empty batch uses no VOLEs; from a fresh start the VOLEs used are the sum of seed, reseedings and checks |
| `CheddaConvRun.RunSeeded` | diet-mac-and-cheese/src/cheddaconv.rs:247-321 | once there is a seed: accepted exactly when every tuple is consistent, with the corrections and messages for the next daBits of the feed, at the VOLEs of the reseedings and checks from the current position |
| `CheddaConvRun.EstimateExact` | diet-mac-and-cheese/src/cheddaconv.rs:323-342 | for a non-empty batch the estimate equals that sum exactly when tuples have at least one bit |
| `CheddaConvRun.EstimateWithBits` | diet-mac-and-cheese/src/cheddaconv.rs:323-342 | for every number of tuples and bits above zero the estimate is what the state machine spends |
| `CheddaConvRun.EstimateWithoutBits` | diet-mac-and-cheese/src/cheddaconv.rs:323-342 | for tuples without bits the estimate falls short by a reseeding (read over the integers; in the program the subtraction underflows) |
| `CheddaFpMult.TruncationExact` | diet-mac-and-cheese/src/cheddaconv.rs:354-436 | for all k and f: bits that satisfy both equations exist exactly for truncated products, for all x, y and z_h, if and only if f = 0 or 2^(k+2f) <= p |
| `CheddaFpMult.WithRoom` | diet-mac-and-cheese/src/cheddaconv.rs:354-436 | when 2^(k+2f) <= p, bits satisfying both equations exist exactly when x y mod p < 2^(k+2f) and z_h = floor((x y mod p) / 2^f) |
| `CheddaFpMult.WithoutFractionalBits` | diet-mac-and-cheese/src/cheddaconv.rs:354-436 | with f = 0 they exist exactly for truncated products whatever k is |
| `CheddaFpMult.WithoutFraction` | diet-mac-and-cheese/src/cheddaconv.rs:354-436 | when not even f bits fit, 0 * 0 can be passed off as 1 |
| `CheddaFpMult.ProductDecides` | diet-mac-and-cheese/src/cheddaconv.rs:378-431 | the honest prover's bits, those of the product, satisfy both equations exactly for truncated products, for any k and f |
| `CheddaFpMult.WithoutRoom` | diet-mac-and-cheese/src/cheddaconv.rs:354-436 | without room for k + 2f bits but with room for f, the bits of x y + p satisfy both equations for a z_h that is not the truncated product |
| `CheddaFpMult.RandomTriple` | diet-mac-and-cheese/src/trunc.rs:24-30 | the sampled factors keep the product below 2^(k+2f), so every triple is a truncated product without wrap-around |
| `CheddaFpLists.SeedMean` | diet-mac-and-cheese/src/cheddaconv.rs:110-121 | whatever was committed as a seed, the two parties' checks (x - 1) x belong together and vanish exactly when all values are bits |
| `CheddaFpLists.FewChallengesAcceptSeed` | diet-mac-and-cheese/src/cheddaconv.rs:110-121 | with delta non-zero, values that are not all bits pass for at most as many challenges as there are values |
| `CheddaFpLists.TripleMean` | diet-mac-and-cheese/src/cheddaconv.rs:409-430 | for any corrections sent, the two checks of a multiplication belong together on both sides and vanish exactly when the corrected bits satisfy both equations |
| `CheddaFpLists.FpMean` | diet-mac-and-cheese/src/cheddaconv.rs:354-436 | the same for the checks of a whole batch, in the program's order |
| `CheddaFpLists.FewChallengesAcceptProducts` | diet-mac-and-cheese/src/cheddaconv.rs:354-436 | with delta non-zero and f = 0 or 2^(k+2f) <= p, a batch with a triple that is not a truncated product passes, for any corrections and masks, for at most 2n challenges |
| `CheddaFpRun.RunSeedFpOnly` | diet-mac-and-cheese/src/cheddaconv.rs:91-126 | a seed over the prime field alone: the given bits, committed with the next random values and proved to be bits by a message about exactly them; the generator starts over, the daBit seed is dropped |
| `CheddaFpRun.RunGenBit` | diet-mac-and-cheese/src/cheddaconv.rs:196-209 | from every reachable state with a seed a bit of degree DP is delivered, expanded from the seeds of the reference feed |
| `CheddaFpRun.RunTriple` | diet-mac-and-cheese/src/cheddaconv.rs:409-431 | the two assertions about a multiplication hold exactly when it is a truncated product; the corrections turn the random bits into those of the product, and exactly the two listed checks join the lists of both parties |
| `CheddaFpRun.RunVerifyFpMult` | diet-mac-and-cheese/src/cheddaconv.rs:354-436 | from any reachable state: an empty batch is accepted without VOLEs; otherwise accepted exactly when k + 2f is at most the bit length the program asserts and every triple is a truncated product; the corrections and messages are about exactly these triples and the next random bits of the feed; from a start without a seed the VOLEs are the exact sum |
| `CheddaFpRun.EstimateFpExact` | diet-mac-and-cheese/src/cheddaconv.rs:438-454 | the estimate of the multiplications is exact |
| `MpcCheddaEdabits.RunSource` | diet-mac-and-cheese/src/mpc_chedda_edabits.rs:274-301 | any number of daBits after a first seed if there is none: exactly the bits of the stream that starts at the present seed or at the next random bits, with the polynomials and messages of the reference feed, authenticated in both fields |
| `MpcCheddaEdabits.ToClearEdabits` | diet-mac-and-cheese/src/mpc_chedda_edabits.rs:131-147 | edaBit i consists of the i-th group of k bits of the stream and their number |
| `MpcCheddaEdabits.RunEmbed` | diet-mac-and-cheese/src/mpc_chedda_edabits.rs:698-735 | the owner's halves hold the clear edaBits, committed with its next random values, the other peer's hold literal zeros; together they encode the clear edaBits, with both mac directions valid |
| `MpcCheddaEdabits.ViewsAuth` | diet-mac-and-cheese/src/mpc_chedda_edabits.rs:98-129 | the owner's parts and the other peer's keys, extracted from the embedded shares, are authenticated edaBits with the clear bits and values |
| `MpcCheddaEdabits.ViewsConsistent` | diet-mac-and-cheese/src/mpc_chedda_edabits.rs:98-129 | they are consistent exactly as the clear edaBits are |
| `MpcCheddaEdabits.RunVerifyEdabits` | diet-mac-and-cheese/src/mpc_chedda_edabits.rs:519-587 | an honest run is accepted exactly when every edaBit is consistent; corrections and messages are about exactly these edaBits and daBits; exact VOLE counts |
| `MpcCheddaEdabits.RunPrivateBatch` | diet-mac-and-cheese/src/mpc_chedda_edabits.rs:698-767 | a sampled batch encodes the groups of k bits of the owner's stream, which starts at its seed or, without one, at its next random bits; sampling fails only without bits or when a first seed does |
| `MpcCheddaEdabits.RunProveBatch` | diet-mac-and-cheese/src/mpc_chedda_edabits.rs:782-816 | the owner's proof about a sampled batch always succeeds, is about exactly its edaBits and daBits, and the generators stay ready |
| `MpcCheddaEdabits.RunBatches` | diet-mac-and-cheese/src/mpc_chedda_edabits.rs:829-840 | both owners sample, then both prove: each batch encodes its own stream, each proof is about its own batch, and all four pools stay matched |
| `MpcCheddaEdabits.RunCombineBatches` | diet-mac-and-cheese/src/mpc_chedda_edabits.rs:842-855 | two batches combined and opened: both peers see the same, which at every position is the sum modulo 2^k of the two numbers; the combination is one of exactly these rows; fails exactly when the daBit check does not admit the number |
| `MpcCheddaEdabits.RunGenerate` | diet-mac-and-cheese/src/mpc_chedda_edabits.rs:857-884 | end to end with a generator per direction: it succeeds when edaBits have bits, first seeds fit and the daBit check admits the number; both peers then open, at every position, the sum modulo 2^k of the groups of bits that the two feeds give, first seeds being the next random bits; proofs and combination are about these batches, and both feeds end where the counts say |
| `Startup.RunInit` | diet-mac-and-cheese/src/homcom.rs:317-328 | with matching VOLE supplies a fresh prover and verifier are linked, with nothing used |
| `Startup.RunNewBackend` | diet-mac-and-cheese/src/backend.rs:172-190 | fresh circuit parties are in step with empty queues: the start of RunProgram |
| `Startup.RunNewPeers` | diet-mac-and-cheese/src/mpc_homcom.rs:38-60 | a linked direction each way in both fields makes two peers that are ready |
| `Startup.RunNewConv` | diet-mac-and-cheese/src/cheddaconv.rs:66-79 | a fresh conversion with a generator is ready, before its first seed |

## Left out

- Sockets, serialisation, bit-packing, the command line, plugins, text and flatbuffer readers, timing, logging, threads in `conv`: they carry the values between the steps that are modelled.
- Finite-field implementations, the VOLE extension (its result is modelled as pools of correlated pairs), AES-based generators and hashes: challenges, samples, permutations and hash values are parameters.
- GF(2) is modelled inside the binary extension ring its macs live in, as bit-valued elements; the ring has characteristic two.
- Secrecy, and probabilities beyond counting the challenges or keys for which a wrong input passes.
- 128-bit overflow in the program's own arithmetic on bounds and estimates: integers are unbounded here, except for reduction modulo the prime, which is modelled everywhere.
- The floating-point slack in `compute_v2_range_bounds` (cheddabits.rs): it is a parameter, and the results hold for any bounds.
- The rejection loop that draws index tuples for the generator: the tuples are parameters, and the results hold for any of them.
- CheddaConv.RunGenSeed: first seeds come from daBits of version 1 only; version 2 is proved by itself in `CheddaBitsV2`.
- CheddaFpRun.RunVerifyFpMult: requires k + f > 0, since with no bits at all nothing is decomposed; the run is an honest prover's, arbitrary corrections are covered by `CheddaFpLists` and `CheddaFpMult`.
- MpcOriginalEdabits.RunCutAndChoose: triples are correct and the owner's own look at its clear cut elements is not repeated, so a run with incorrect triples is not decided as a whole (`RunOpenTriples` decides their opening).
- Whole generation in mpc_original_edabits.rs (622-706): it composes `MpcOriginalEdabits.RunCutAndChoose` for both owners with `MpcEdabits.RunCombine`.
- MpcCheddaEdabits.RunGenerate: the program has generator parameters for at least 1024 edaBits only; the model has none of these constants.
- EdabitConversionRun.RunBuckets: the verdict is the verifier's, for a prover that goes on after its own zero check has failed; the program's prover stops there.
- WireProgram.RunProgram: one field; ill-formed use (reading an unset wire, slices across chunks, deleting part of a chunk) is excluded by `WellFormedRun`, where the program aborts or leaves the behaviour to its callers. Memory of several fields is that many independent memories.
- Backend.RunProgram: the run stops at the first error; `reset` and the verifier's monitoring counters are not modelled.
- edabits.rs: `verify_fp_mult`, `random_edabits_b2a` and `estimate_combine_voles`, whose parts (`Fdabit`, `EdabitConversion`) are proved here; the trivial conversions between equal fields; the scheduling of conversion batches by `EdabitsMap`.
