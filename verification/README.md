# Verification of the circuit arithmetic of ZKsync Airbender

Airbender proves RISC-V execution with circuits over the Mersenne prime field. Every circuit comes in
two halves: constraints, which any row of a proof must satisfy, and a generated witness function, which
fills an honest row. This project models both halves of the arithmetic circuits and proves:

- **soundness**, for every circuit below but the jump and branch family: whatever values a row holds, if the
  constraints hold over the field then the words read as outputs are the ones the instruction set or the
  hash standard prescribes. For the jump and branch family this is false of the code; what is proved is
  exactly which rows are right (see Findings);
- **completeness**: the row that the generator fills, slot by slot and in its own order, satisfies every
  constraint for all operands, but for the jump targets the circuit refuses and the unaligned program
  counters it does not expect, both characterised exactly.

Constraints are equations modulo 2^31 - 1 on rows of arbitrary field elements; where a circuit divides or
tests for zero the proofs use that the modulus is prime, which is itself proved.

What is covered:

- the field: primality, inverses, and the addition chain that computes them;
- signed multiply/divide (`MulDiv*`), its unsigned form (`Unsigned*`), and the shared limb chain
  (`LimbChain`);
- the full machine: instruction decoder, the adder shared by nine families, multiplication, division and
  remainder checks (`Decoder*`, `Full*`);
- the add/sub/lui/auipc/modular family (`AddSubMop*`), the program counter increment (`PcBump`);
- jumps, branches and set-less-than (`JumpBranch*`): the constraints the circuit enforces, the additions it
  registers without enforcing, and the difference between the two;
- the Keccak delegation (`Keccak*`): Keccak-f[1600] of FIPS 202, bit by bit; the schedule of 649 calls
  that computes it without moving data for pi and with every round constant one round late; the circuit
  of one call, with its flag-weighted routing over shared lookups; 649 linked rows; the fast path of the
  simulator;
- the Blake2s hasher (`Blake2s*`) against RFC 7693. What the standard's constants and helpers mean is stated on
  numbers (`Blake2sLaws`), and the mixing function is proved to be the one on 32-bit machine vectors
  (`Blake2sVector`, over `WordFolds`, `VectorFacts` and `BitVectors`), where a known digest pins rotations, schedule
  and parameters together.

Words are integers with explicit wrap-around (`Words`) or strings of bits (`BitStrings`). Witness rows are
arrays that methods fill; each method states which slots it leaves alone. Slots are named by their number
in the generated functions; `eval_fn_N` in a comment names the function that a method models. The generated
files are one physical line each, hence the citations of line 1.

Inverses and divisions are computed, not assumed. Lookup tables are relations (`InTable`,
`InConditionTable`, `InCleanupTable`, `LooksUp`): a row satisfies a lookup when its tuple is in the table.

## Model

| member | source | states |
|---|---|---|
| Mersenne31.ModulusIsPrime | field/src/base.rs:205-242 | 2^31 - 1 is prime (by elements of order 331 and 151 in the units), which the zero test, the inverse and every product constraint rely on |
| Mersenne31.Invert | field/src/base.rs:205-242 | the addition chain for the exponent p - 2 returns the inverse of every nonzero element and zero for zero |
| Gadgets.IsZeroMeans | cs/src/cs/circuit.rs:649-677 | any flag and hint accepted by the zero test of a register: the flag is 1 exactly when the register is 0 |
| Gadgets.SignBitMeans | cs/src/machine/utils.rs:699-744 | the masked sign-bit gadget accepts exactly the masked sign and the limb with its top bit flipped |
| LimbChain.ChainSound | cs/src/devices/optimization_context.rs:769-1388 | any carries satisfying the four limb equations force op1 * op2 + addend to equal the 64-bit result modulo 2^64, on sign-extended operands |
| LimbChain.ChainComplete | cs/src/devices/optimization_context.rs:769-1388 | whenever that congruence holds, the computed carries are exact, non-negative and fit in 9, 10, 11 and 11 bits |
| LimbChain.FieldChainExact | cs/src/devices/optimization_context.rs:769-1388 | the field form of the four equations holds over the integers: no limb sum reaches the modulus |
| MulDivCircuit.MaskOfFunct3 | cs/src/machine/ops/unrolled/decoder/mul_div.rs:88-149 | the mask of each of the eight operations is the literal that the decoder sets for its funct3 |
| MulDivCircuit.CircuitSound | cs/src/machine/ops/unrolled/mul_div.rs:22-417 | every row satisfying the constraints, for any choice of hints, holds the RISC-V result of all eight operations on all operands, zero divisors and the overflowing division included |
| MulDivCircuit.RemainderBoundSound | cs/src/machine/ops/unrolled/mul_div.rs:369-398 | slot 77 is 1 exactly when the remainder is smaller than the divisor in absolute value, in all four sign combinations |
| MulDivCircuit.DivisionPinned | cs/src/machine/ops/unrolled/mul_div.rs:270-341 | the congruence modulo 2^64 with the remainder bound and derived signs has one solution: the truncated quotient and remainder |
| MulDivWitness.CircuitComplete | prover/mul_div_preprocessed_generated.rs:1 | a row on which every generator step has run satisfies all constraints |
| MulDivGenerator.Evaluate | prover/mul_div_preprocessed_generated.rs:1 | the whole generator, in its order: for every operation and all operands the row satisfies the circuit and slots 67, 68 hold the result |
| UnsignedMulDiv.SubtractionMeans | cs/src/machine/utils.rs:785-823 | the subtraction gadget, whose middle borrow is a multiple of 2^15, accepts exactly the true difference and underflow |
| UnsignedMulDiv.ThreeCarries | cs/src/devices/optimization_context.rs:1406-1523 | without signs the carries fit in 9, 10 and 9 bits, and the last carry plus the top byte product meets the top limb with nothing left over |
| UnsignedMulDiv.ThirdLimbBound | cs/src/devices/optimization_context.rs:1406-1420 | the third limb sum with its carry is at most 511 * 2^16 + 2 |
| UnsignedMulDiv.Masks | cs/src/machine/ops/unrolled/decoder/mul_div.rs:88-149 | the mask that the decoder sets for each of the four unsigned operations |
| UnsignedMulDiv.CircuitSound | cs/src/machine/ops/unrolled/mul_div.rs:22-417 | every row satisfying the unsigned constraints holds MUL, MULHU, DIVU or REMU of its operands |
| UnsignedGenerator.CircuitComplete | prover/mul_div_unsigned_preprocessed_generated.rs:1 | a row on which every step has run satisfies all constraints |
| UnsignedGenerator.Evaluate | prover/mul_div_unsigned_preprocessed_generated.rs:1 | the whole generator: the row satisfies the circuit and slots 45, 46 hold the result, for all operands |
| Decoder.DecompositionIsUnique | cs/src/machine/decoder/decode_optimized_must_handle_csr.rs:110-156 | the constraints accept exactly one set of bit-field pieces, although bits 7 and 20 have no slot and are expressed by dividing in the field |
| Decoder.ImmediateSound | cs/src/machine/decoder/decode_optimized_must_handle_csr.rs:217-257 | for every instruction of format I, S, B, U or J and any pieces, the two immediate slots are the halves of the sign-extended immediate |
| Decoder.RegistersSound | cs/src/machine/decoder/decode_optimized_must_handle_csr.rs:162-191 | register numbers, funct7 and the key of the operation table are the bit fields of the instruction |
| DecoderGenerator.Decode | prover/full_machine_with_delegation_generated.rs:1 | `eval_fn_3`, `8`, `9`: whatever the row held, the pieces satisfy the constraints and the immediate slots receive the immediate of the flagged format |
| FullMachine.SharedAddition | cs/src/devices/utils.rs:6-96 | with one family flag set, the nine-fold flag-weighted adder constraints hold if and only if the family's own addition holds limb by limb |
| FullMachine.AdderSound | cs/src/devices/optimization_context.rs:1532-1563 | for every choice of hints the shared adder yields the sum, difference with borrow, branch and address targets of the family |
| FullMachine.JumpTargetSound | cs/src/machine/ops/jump.rs:68-84 | a jump's target is the program counter or the first operand plus the immediate, modulo 2^32 |
| FullMulDiv.RemainderChecked | cs/src/machine/ops/mul_div.rs:628-670 | the remainder bound read off the shared adder: remainder below divisor in absolute value |
| FullMulDiv.OutputSound | cs/src/machine/ops/mul_div.rs:78-715 | on any satisfying row the output limbs of multiplication and division families hold the RISC-V result of all eight instructions |
| FullGenerator.DivideWords | prover/full_machine_with_delegation_generated.rs:1 | `eval_fn_38`: quotient and remainder words for signed and unsigned operands, with the primitive never given a zero divisor or the overflowing pair |
| FullGenerator.QuotientFits | prover/full_machine_with_delegation_generated.rs:1 | outside the overflowing pair every signed quotient fits in 32 bits, so the guard is enough |
| FullWitness.RowComplete | prover/full_machine_with_delegation_generated.rs:1 | after all steps of any of the 13 families the row satisfies adder, base, selection, chain and check constraints |
| FullRun.Evaluate | prover/full_machine_with_delegation_generated.rs:1 | the whole arithmetic generator, masked overwrites included: the row satisfies the circuit, and holds the sum, difference and borrow, jump or branch target, address, product, quotient or remainder, for the nine families that compute one |
| PcBump.BumpSound | cs/src/machine/utils.rs:131-240 | the increment constraints give pc + 4 if and only if the low limb is at most 2^16 - 4 |
| PcBump.AlignedBumps | cs/src/machine/utils.rs:131-240 | an aligned program counter, which the code states as its invariant, is always incremented correctly |
| PcBump.ComputeBump | cs/src/machine/utils.rs:131-240 | the computed flags and inverses satisfy the constraints if and only if the low limb is at most 2^16 - 4 |
| AddSubMop.Masks | cs/src/machine/ops/unrolled/decoder/add_sub_lui_auipc_mop.rs:6-13 | the mask that the decoder sets for each of the eight operations |
| AddSubMop.CircuitSound | cs/src/machine/ops/unrolled/add_sub_lui_auipc_mop.rs:16-453 | from the mask: any satisfying row holds the result of its one of eight operations; the modular ones are canonical residues even for operands that are not |
| AddSubMop.BorrowCertifies | cs/src/machine/ops/unrolled/add_sub_lui_auipc_mop.rs:16-453 | the borrow of the shared addition certifies that a modular result is below p |
| AddSubMop.LimbProduct | prover/add_sub_lui_auipc_mop_preprocessed_generated.rs:1 | `eval_fn_4`: the limb form with 2^32 = 2 is the product of the two words in the field |
| AddSubMopGenerator.Evaluate | prover/add_sub_lui_auipc_mop_preprocessed_generated.rs:1 | the whole generator: for all eight operations and all operands the row satisfies the constraints and holds the result |
| JumpBranch.IndexDecides | cs/src/tables/branch_opcode_related.rs:147-214 | one fixed function of borrow, equality and two sign bits decides all eight conditions for every pair of words |
| JumpBranch.ConditionLaws | cs/src/tables/branch_opcode_related.rs:147-214 | the eight conditions by their laws: codes 0/1, 4/5 and 6/7 are negations, 2 and 3 are 4 and 6, orderings are strict, and the signed and unsigned ones part on (2^32 - 1, 0) |
| JumpBranch.Masks | cs/src/machine/ops/unrolled/decoder/jump_slt_branch.rs:4-8 | the mask that the decoder sets for each of the five kinds of instruction |
| JumpBranchCircuit.FlagExactly | cs/src/machine/ops/unrolled/jump_branch_slt.rs:125-170 | any row that satisfies the enforced constraints holds the condition of funct3 as its flag if and only if the zero test tells equality (BEQ, BNE), or place 20 is the borrow (orderings), or a signed ordering has operands of different sign |
| JumpBranch.CleanedTarget | cs/src/tables/jump_opcode_related.rs:1-26 | a jump accepted with bit 1 clear continues at the target with bit 0 cleared |
| JumpBranchCircuit.EnforcedMeans | cs/src/machine/ops/unrolled/jump_branch_slt.rs:22-310 | what the enforced constraints fix by themselves: one flag per mask, the selections, rd and the next pc as functions of the row, and no jump with bit 1 set in place 13 |
| JumpBranchCircuit.NextPcReaches | cs/src/machine/ops/unrolled/jump_branch_slt.rs:22-310 | for every word, exactly which enforced rows continue there: places 13 and 14 decide, above the two cleaned bits when the row jumps |
| JumpBranchCircuit.NextPcExact | cs/src/machine/ops/unrolled/jump_branch_slt.rs:22-310 | the next pc of an enforced row is the prescribed one if and only if places 13 and 14 are the target's limbs, or, on a jumping row, agree with them above the two low bits and the target has bit 1 clear |
| JumpBranchCircuit.RdExact | cs/src/machine/ops/unrolled/jump_branch_slt.rs:22-310 | rd of an enforced row is right if and only if a linking jump has the limbs of pc + 4 in places 9 and 10 and a comparison has a supported flag; x0 and branches are always right |
| JumpBranchCircuit.RowExact | cs/src/machine/ops/unrolled/jump_branch_slt.rs:22-310 | flag, rd and next pc of an enforced row are together those of the instruction if and only if those three conditions hold |
| JumpBranchCircuit.JumpMisdirected | cs/src/machine/ops/unrolled/jump_branch_slt.rs:22-310 | an enforced row of JAL at address 0 with offset 8 that continues at 65536 and links 0 |
| JumpBranchCircuit.BranchMissed | cs/src/machine/ops/unrolled/jump_branch_slt.rs:22-310 | an enforced row of BEQ on equal operands that is not taken |
| JumpBranchCircuit.CircuitSound | cs/src/machine/ops/unrolled/jump_branch_slt.rs:22-310 | if the registered additions were enforced, with their middle carries, every satisfying row would execute its instruction, and never jump to a target with bit 1 set |
| JumpBranchCircuit.RowComplete | cs/src/machine/ops/unrolled/jump_branch_slt.rs:22-310 | a finished row meets both registered additions, and the enforced constraints if and only if it does not jump to a target with bit 1 set |
| JumpBranchGenerator.Evaluate | prover/jump_branch_slt_preprocessed_generated.rs:1 | the masked writes in their order: condition and target are right, the registered additions hold, and the enforced constraints too unless the target of a jump has bit 1 set |
| KeccakFast.WalkIsStandard | riscv_transpiler/src/vm/delegations/keccak_special5.rs:459-577 | the walk with accumulated rotations that the fast path takes through 24 lanes is rho followed by pi |
| KeccakConstants.ConstantIsStandard | cs/src/tables/keccak_precompile_related.rs:148-174 | every stored round constant is the one the shift register of FIPS 202 generates |
| KeccakSchedule.ControlAdvances | riscv_transpiler/src/vm/delegations/keccak_special5.rs:120-156 | the control register counts through the 649 calls by itself |
| KeccakSchedule.ControlEnds | common_constants/src/delegation_types/keccak_special5.rs:50-53 | from register value 0 it ends at 1544 |
| KeccakSchedule.NextSlotsFollowPi | cs/src/tables/keccak_precompile_related.rs:15-46 | each row of the slot table is the previous one followed by pi |
| KeccakTable.Row | cs/src/tables/keccak_precompile_related.rs:15-46 | the stored table of 25 permutations holds those rows |
| KeccakRun.MixWords | riscv_transpiler/src/vm/delegations/keccak_special5.rs:263-458 | two calls with one temporary turn the five column parities into what theta adds to all five columns, and touch nothing else |
| KeccakRun.RhoStep | riscv_transpiler/src/vm/delegations/keccak_special5.rs:263-458 | one rho call rotates its column by the standard's offsets, wherever pi has put the lanes |
| KeccakRun.ChiStep | riscv_transpiler/src/vm/delegations/keccak_special5.rs:263-458 | chi1 then chi2 leave all five lanes of chi on their row, and the words the next rows need |
| KeccakWholeRun.RunIsPermutation | riscv_transpiler/src/vm/delegations/keccak_special5.rs:107-458 | any run of the 649 scheduled calls leaves Keccak-f[1600] of the first 25 words, in order, and fixes the six scratch words |
| KeccakFast.Permute | riscv_transpiler/src/vm/delegations/keccak_special5.rs:459-577 | the in-place fast path leaves the permutation and, in the scratch words, what the run leaves |
| KeccakFast.FastPathIsRun | riscv_transpiler/src/vm/delegations/keccak_special5.rs:459-577 | fast path and run of calls agree on all 31 words |
| KeccakWords.RotPairIsRotL | cs/src/delegation/keccak_special5/mod.rs:740-775 | shifts and an addition on two 32-bit words rotate the 64-bit word, for every amount below 64, zero included |
| KeccakDatapath.SelectOutputs | prover/keccak_delegation_generated.rs:1 | `eval_fn_36`: the words selected by the flags are the outputs of the call, for all seven modes |
| KeccakMachine.Machine.Invoke | riscv_transpiler/src/replayer/delegations/keccak_special5.rs:146-217 | one call, stated on the 62 memory words before and after: word j is half j % 2 of lane j / 2, low half first; it reads six lanes, computes, writes them back and moves the register on |
| KeccakMachine.Machine.Permute | common_constants/src/delegation_types/keccak_special5.rs:50-53 | 649 calls from the initial register: the first 50 memory words, low half of each lane first, go from a state to its permutation, all 62 are fixed, and the register is the final one |
| KeccakMachine.IsThePermutation | common_constants/src/delegation_types/keccak_special5.rs:50-53 | what `Permute` says of the state it leaves: it is Keccak-f[1600] of the state it took, and nothing else is |
| KeccakBinop.BytesSound | cs/src/tables/keccak_precompile_related.rs:211-237 | eight byte lookups that recompose to the limbs of three words make the third the exclusive-or, or and-not, of the first two |
| KeccakBinop.RotationSound | cs/src/tables/keccak_precompile_related.rs:238-277 | four 16-bit lookups and four limb sums rotate a word by any amount below 64 |
| KeccakBinop.IotaSound | cs/src/tables/keccak_precompile_related.rs:146-209 | eight lookups keyed by round and position add the delayed round constant |
| KeccakBinop.BytesComplete | prover/keccak_delegation_generated.rs:1 | the byte triples of any correct result are in the table and recompose |
| KeccakBinop.RotationComplete | prover/keccak_delegation_generated.rs:1 | so are the four 16-bit splits of any rotation, offset 0 included, and no limb sum leaves its range |
| KeccakControl.ControlSound | cs/src/delegation/keccak_special5/mod.rs:522-635 | any flags satisfying the constraints are the decoded mode, iteration and round of the register |
| KeccakControl.NextControlSound | cs/src/delegation/keccak_special5/mod.rs:641-658 | the polynomial in the flags forces the next register to be the bumped one |
| KeccakRouting.OperationCollapses | cs/src/delegation/keccak_special5/mod.rs:1482-1691 | one-hot flags collapse table number, rotation and the three flag-weighted columns of a shared bank to the table, amount and registers of the mode: constraints hold if and only if the mode's operation does |
| KeccakCircuit.OperationSound | cs/src/delegation/keccak_special5/mod.rs:1482-1691 | triples of the selected table whose columns meet the registers compute the operation on 64-bit words, and the result is in range |
| KeccakCircuit.RowSound | cs/src/delegation/keccak_special5/mod.rs:522-1480 | whatever flags, table numbers, banks and temporaries satisfy an executing row, the six words written are limbs and are the outputs of the call, and the next register is the bumped one |
| KeccakCircuit.RowDetermined | cs/src/delegation/keccak_special5/mod.rs:522-1480 | two satisfying rows with the same register and words write the same limbs |
| KeccakProver.RowComplete | prover/keccak_delegation_generated.rs:1 | the generator's row satisfies every constraint: its forty triples, zeros in the unused rotation places included, are in tables 4, 59, 60 and 61 as the flags select |
| KeccakRowGenerator.SelectBank | prover/keccak_delegation_generated.rs:1 | folding seven candidate banks with the mode flags, and five rotations with the iteration flags, leaves the bank of the mode |
| KeccakRowGenerator.Evaluate | prover/keccak_delegation_generated.rs:1 | for every valid register and all words the generated row satisfies the circuit |
| KeccakTrace.LookupDetermined | cs/src/tables/keccak_precompile_related.rs:4-144 | a valid register looks up the six indices of its call and no others |
| KeccakTrace.TraceIsPermutation | cs/src/delegation/keccak_special5/mod.rs:205-1480 | any 649 satisfying rows linked by register, index lookups and memory, from register 0, leave Keccak-f[1600] of the initial words and register 1544 |
| KeccakTrace.Prover.Prove | prover/keccak_delegation_generated.rs:1 | for all initial words the generator produces such a trace |
| Blake2sLaws.RotationDivides | blake2s_u32/src/mixing_function.rs:17-24 | rotating a word right by n divides its number by 2^n and moves the remainder to the top |
| Blake2sLaws.CounterMixed | blake2s_u32/src/baseline.rs:96-126 | words 12 and 13 of the extended state are the two halves of the byte counter, as numbers, exclusive-or the vector |
| Blake2sLaws.MarkInverts | blake2s_u32/src/baseline.rs:96-126 | the mark of the last block inverts every bit of word 14 and touches nothing else |
| Blake2sLaws.VectorIsRoots | blake2s_u32/src/lib.rs:30-32 | the initialization vector is the first 32 fractional bits of the square roots of the first eight primes |
| Blake2sLaws.ParametersAre | blake2s_u32/src/lib.rs:34-36 | the parameter words are digest length 32, no key, fanout 1 and depth 1, one octet each |
| Blake2sLaws.Schedules | blake2s_u32/src/lib.rs:38-49 | every round uses every word of the block once, and at each of the 16 places the ten rounds use ten different words |
| Blake2sLaws.PaddingIsZero | blake2s_u32/src/baseline.rs:83-134 | octets past the end of a message count as zeros, whether or not they fill a word |
| Blake2sLaws.LittleEndian | blake2s_u32/src/baseline.rs:83-134 | four octets are the word whose number has them as digits, the lowest first |
| Blake2sVector.MixIsG | blake2s_u32/src/mixing_function.rs:8-25 | for all words the mixing function is the one on 32-bit vectors, with machine addition, exclusive-or and shifts by 16, 12, 8 and 7 |
| Blake2sVector.RoundIsFullRound | blake2s_u32/src/mixing_function.rs:27-109 | for all states and blocks a round is four vector mixes of the columns and four of the diagonals |
| Blake2sVector.InitialVectors | blake2s_u32/src/lib.rs:36-58 | the initial state as eight literal numbers |
| Blake2sVector.KnownAnswer | blake2s_u32/src/baseline.rs:220-255 | the digest of the block of words 0 to 15 after ten rounds and counter 64, as eight literal numbers: c6449764 a856e2f9 1dd57ef7 1f310eb0 bd83507a a9b498d6 387809a5 264a7830 |
| BitVectors.VectorDetermines | blake2s_u32/src/mixing_function.rs:8-25 | words with the same 32-bit vector are equal, so those literals fix the words |
| Blake2sHasher.RoundFunction | blake2s_u32/src/mixing_function.rs:111-134 | in-place mixing of columns and then diagonals is the stated number of rounds |
| Blake2sHasher.CompressWords | blake2s_u32/src/baseline.rs:96-134 | one compression is F of RFC 7693, with a 32-bit counter |
| Blake2sHasher.Hasher.HashStreaming | blake2s_u32/src/baseline.rs:138-217 | absorbing a message of any number of 32-bit words block by block returns its hash with a counter modulo 2^32, which below 2^32 bytes is its BLAKE2s digest |
| Blake2sHasher.Hasher.HashBuffered | blake2s_u32/src/baseline.rs:83-134 | going through the zero-padded buffer hashes a message of any number of bytes, with the same counter; below 2^32 bytes the state is its BLAKE2s digest |
| Blake2s.HashOfOctets | blake2s_u32/src/baseline.rs:83-134 | on whole words the hash of the bytes is the hash of the words, so both ways through the hasher agree |
| Blake2sHasher.Hasher.RunSingleRound | blake2s_u32/src/baseline.rs:16-57 | the single-round entry extends the current state but folds into the initial vector: it is the last compression if and only if the state is the initial one |
| Blake2sHasher.SingleRoundDigest | blake2s_u32/src/baseline.rs:16-57 | on the initial state it is the digest of a message of up to one block |
| Blake2sHasher.Hasher.Absorb | blake2s_u32/src/baseline.rs:138-175 | a full block advances the counter by 64 modulo 2^32 and compresses, not marked last |
| Blake2sHasher.Hasher.AbsorbFinalBlock | blake2s_u32/src/baseline.rs:177-217 | the last block is counted by its length modulo 2^32, marked last, and leaves the state alone |
| Blake2sHasher.CompressTwoToOne | blake2s_u32/src/baseline.rs:220-255 | the digest of a message of exactly one block |

## Findings

| where | property that fails | input | exact condition |
|---|---|---|---|
| cs/src/machine/ops/unrolled/jump_branch_slt.rs:22-310 | a row that satisfies the circuit executes its jump, branch or comparison. `apply_jump_branch_slt` registers eleven masked additions with its optimization context and never calls `enforce_all` (compare add_sub_lui_auipc_mop.rs:453 in the same directory), and the compiled constraints (cs/jump_branch_slt_preprocessed_layout.json:1) have no equation that computes places 9, 10, 20 or 13, 14, 23 from the operands: these are only range-checked or boolean | `JumpBranchCircuit.JumpMisdirected`: JAL at address 0 with offset 8 continues at 65536 and links 0; `JumpBranchCircuit.BranchMissed`: BEQ on equal operands is not taken | `JumpBranchCircuit.RowExact`, from `FlagExactly`, `RdExact` and `NextPcExact`: those places hold what the operation looks at. `CircuitSound` shows that enforcing the registered additions is enough; `RowComplete` and `JumpBranchGenerator.Evaluate` that the honest row already meets them |
| cs/src/machine/utils.rs:131-240 | the increment constraints give pc + 4 | a program counter whose low limb is 2^16 - 3, 2^16 - 2 or 2^16 - 1 | `PcBump.BumpSound`: the low limb is at most 2^16 - 4, which the alignment of the program counter implies (`AlignedBumps`) |
| blake2s_u32/src/baseline.rs:16-57 | the single-round entry is a last compression of the state | any state other than the initial one | `Blake2sHasher.SingleRoundExact`: the state is the initial one |

## Left out

- Padding rows: rows that do not execute (all flags zero) are not modelled; every theorem is about executing rows.
- Memory argument and lookup argument: a row's lookups are membership in a stated relation, `KeccakTrace` takes memory as the sequence of words between rows, and operands read from memory or registers are 16-bit limbs.
- Lookup contents of the decoder's operation table, the instruction fetch, shifts, byte logic and CSR access: interface only.
- Load and store families (`load_store`, word-only and subword-only): their results come almost entirely from tables.
- The minimal and reduced machines: they repeat the decoder and the adder with other slot numbers.
- PcBump.BumpSound: the condition on the low limb is needed; the three largest limbs carry without being noticed, and the source rules them out by the alignment of the program counter.
- The decoder's comment writes chunk 5 with `(1 - j_insn - b_insn)` where the code uses `(1 - j_insn - u_insn)`; the model follows the code.
- The comment in `cs/src/tables/keccak_precompile_related.rs` on controls outside the schedule (the table returns indices 0 to 5) is modelled as `JUNK`; nothing is claimed of rows with such a control.
- Checked arithmetic: the Blake2s byte counter wraps as in a release build; a build with overflow checks stops instead.
- `blake2s_u32/src/delegation.rs` and the vectorized implementations: assembly and duplicated code.
- Witness rows of Keccak are values assembled by methods that loop over the flags, not slots of one array.
