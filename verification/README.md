# Idio: arithmetic, code generation, evaluation, frames

This project models four connected parts of the Idio shell language's C implementation and proves what they promise.

- **Decimal bignums** (`src/bignum.c`). Integers are arrays of base 10^DPW segments, least significant first, with the
  sign on the top segment; reals are a sign flag, an exponent and a significand of at most MAX_DIGITS digits. Everything
  is stated for any segment width and word size that satisfy `Layout.Valid`, which both build layouts do
  (`BothLayoutsValid`). Every segment computation passes through a function that demands it fit the machine word.
- **The byte-code generator** (`src/codegen.c`) together with the instructions of the virtual machine it generates for
  (`src/vm.c`). `Icode` holds the layout of the code as a function of the tree, `Codegen` the imperative generator proved
  to write exactly that, `Machine` a step machine on bytes, `Meaning` what the tree means without bytes, stack or program
  counter, and `Correct` and `Hoisting` the proof that the bytes do what the tree means.
- **The evaluator's passes** (`src/evaluate.c`): lexical addresses, tail positions, argument frames, quasi-quotation,
  `cond`, bodies, and the symbol and constant tables.
- **Activation frames** (`src/frame.c`): the run-time side of lexical addresses.

The parts meet. `Source` says what expressions mean by names alone, without addresses, I-code or tail calls;
`SourceCorrect.Faithful` shows that the evaluator's I-code means the same; `Codegen.GenerateTop` writes the bytes;
`Correct.Runs` and `Hoisting.RunsTop` show that the bytes do what the I-code means; and `WholePrograms.RunsSource` puts
these together, form after form, for any top-level expression. All of them speak of faults and endless runs as well as of
values, so that `Fates.FormFate` and `SourceFates.SourceFate` are equivalences: a form's run comes out, halts or goes on
for ever exactly as the form has a value, faults, or does neither. `FrameRefinement` ties the frames in the heap to those
of the machine, `Bindings` shows that addresses lead to the innermost binding of each name, and `Indices` that the tables
keep the indices of names and functions apart.

What the levels have in common is pinned down on its own, so that agreeing with each other is not all they do: `Calls` and
`SourceCalls` say what a function sees of its arguments, `InForce` which traps, suppressions, aborts and return addresses
are on the stack while a part runs, and `Marks` which calls are tail calls and what else the I-code records.

## Where the code does less than it might be expected to

Each of these is proved, with a concrete case and the exact condition.

- Real division loses its exponent when the scaled dividend's exponent is 0 and the divisor's is the smallest one: the
  guard before the 32-bit subtraction misses that pair (1e18 / 1e-2147483648). The quotient is right exactly when
  `ExponentWraps` does not hold (`RealDivide`, `WrapWitness`).
- Reading a negative integer whose leading chunk of digits, cut from the right, is all zeros loses the sign, because it is
  put on a top segment that is then removed (`IntegerC`, `SignLost`). Printed integers are never like that.
- An assignment to a dynamic or environ variable changes the variable's value in the table even where a binding is in
  force, and references look at the binding first: `dynamic-let (x 1) { x = 2; x }` gives 1 and leaves 2 outside. After
  an assignment the name has the value assigned if and only if no binding with another value is in force
  (`AssignedValueRead`, `BindingMissed`). In the source language of `Source` the assignment changes the binding.
- A local's slot is free again after its block. A function that closed over a local of one block sees what a later block
  of the same activation puts there, if and only if as many slots were in use where that block's local was made
  (`CapturedLocalRead`, `SiblingSeen`).
- An integer that meets a real loses its digits beyond MAX_DIGITS first, so that 10^18 + 1 compares equal to 1e18. An
  integer is compared rightly with every real if and only if it has only zeros there (`ConversionExact`,
  `AlwaysEqualRight`, `AlwaysBelowRight`, `DigitLost`).
- A quasi-quotation is expanded into calls of `pair`, `list`, `append` and `list->array` that are looked up where it
  stands. Whoever binds one of these names there changes the value of the templates whose expansion uses it
  (`BindingHarmless`, `PlainBindingHarmless`, `PairRebound`).
- A real of one digit with the smallest exponent prints as d.0e-2147483648, and the reader calls that an underflow
  (`PrintThenReadReal`, `SmallestUnread`). The sign flag of a zero is not printed (`ZeroSignLost`).
- The NO_DEFINE macro compares with zero instead of clearing a bit, and the 1 it can yield is the tail flag
  (`NoDefineTail`, `NoDefineOfNothing`). An assignment always has a scope bit set, so its value is never compiled as a
  tail position (`AssignedNeverTail`).
- The call that assigns to a place is never a tail call, even in tail position (`MarksAre`).
- A second argument of a nested `quasiquote` is dropped (`PlainTemplate`, `ArgumentDropped`).
- Introductions at the end of a body lose their value expressions (`BodyKept`, `LastIntroductionLost`).
- Some branches are never taken: the nil results and unequal segment counts in the comparison of reals (`AlignedLess`),
  the NOP for a form without code (`Generate`), the search of the constants after the hash has missed (`Intern`).

A comment in the comparison of reals (`src/bignum.c:2223-2248`) supposes that scaling cannot return nil there;
`AlignedPointsHaveRoom` proves it.

## Model

| member | source | states |
|---|---|---|
| Layouts.BothLayoutsValid | src/bignum.h:61-166 | In both build layouts twice a segment's base fits the signed word, and both keep 18 digits. |
| Layouts.Bsa.Set | src/bignum.c:212-235 | Setting a segment overwrites it, appends one just past the end, and is refused anywhere beyond, leaving the array alone. |
| Layouts.Bsa.Pop | src/bignum.c:258-273 | Popping removes the top segment; popping an empty array is refused. |
| Segments.CanonicalUnique | src/bignum.h:138-166 | Equal integers have equal segment arrays: the canonical form is unique. |
| Integers.Add | src/bignum.c:1081-1164 | For canonical integers of any sign the result is canonical and is the sum; the recursion through subtraction ends. |
| Integers.Subtract | src/bignum.c:1280-1394 | For canonical integers of any sign the result is canonical and is the difference; the recursion through addition ends. |
| Integers.LessThan | src/bignum.c:1181-1246 | The comparison decides exactly the order of the integers. |
| Integers.EqualP | src/bignum.c:1248-1278 | Equality of segment arrays decides exactly the equality of the integers. |
| Integers.RemoveLeadingZeroes | src/bignum.c:1384-1393 | Popping zero segments keeps the number and leaves a canonical array. |
| LongArithmetic.ShiftLeft | src/bignum.c:1396-1449 | The result is canonical and is ten times the number plus the digit shifted in, also when that digit is the 10 long division may produce first. |
| LongArithmetic.ShiftRight | src/bignum.c:1451-1509 | The number is ten times the canonical result plus the digit shifted out. |
| LongArithmetic.Multiply | src/bignum.c:1511-1553 | For canonical integers of any sign the result is canonical and is the product. |
| LongArithmetic.Equalize | src/bignum.c:1565-1589 | The scaled divisor is the divisor times a power of ten, the factor that power, and the dividend at most ten times the scaled divisor. |
| LongArithmetic.QuotientFits | src/bignum.c:1689-1702 | A quotient digit is at most 9, or it is the first one and 10, with nothing in front of it. |
| LongArithmetic.DivisionRound | src/bignum.c:1689-1711 | Each round keeps dividend = quotient * scaled divisor * 10 + remainder and the bound on the remainder. |
| LongArithmetic.Divide | src/bignum.c:1591-1728 | A zero divisor is refused, and only that; otherwise dividend = quotient * divisor + remainder, the remainder smaller than the divisor and zero or of the dividend's sign, both canonical. |
| Reals.CountDigits | src/bignum.c:3259-3280 | The count is the number of decimal digits of the significand. |
| Reals.Normalize | src/bignum.c:1846-1923 | Digits beyond MAX_DIGITS and trailing zeros are dropped, the exponent goes up by as many, and exceeding the largest exponent is reported exactly then. |
| RealOrder.NormalisedIsNormal | src/bignum.c:1846-1923 | The result has at most MAX_DIGITS digits, no trailing zero, zero has exponent 0; it lies towards zero within one unit of the last kept digit. |
| RealOrder.NormaliseIdempotent | src/bignum.c:1846-1923 | Normalising a normal real gives it back. |
| RealOrder.NormalUnique | src/bignum.c:2006-2073 | Two normal reals have the same value exactly when exponent, segments and sign agree. |
| RealOrder.RealEqual | src/bignum.c:2006-2073 | On two normal reals it decides same value and same exactness. |
| RealOrder.ScaleSignificand | src/bignum.c:2082-2119 | Scaling keeps the value at the wanted exponent, and refuses exactly when the 32-bit difference of the exponents exceeds the room for digits. |
| RealOrder.AlignedPointsHaveRoom | src/bignum.c:2223-2267 | With decimal points aligned, scaling within MAX_DIGITS never refuses. |
| RealOrder.EqualDigitsEqualSegments | src/bignum.c:2269-2278 | Equal digit counts force equal segment counts. |
| RealOrder.AlignedLess | src/bignum.c:2223-2296 | The last part of the comparison is the order of the values; its nil and unequal-length branches are dead. |
| RealOrder.RealLess | src/bignum.c:2121-2296 | On two normal reals it is exactly the order of the rational values. |
| RealArithmetic.RealAdd | src/bignum.c:2298-2394 | Of two normal reals: the sum is normal and within one unit of the MAX_DIGITS-th digit of the exact sum, also where the larger operand is returned; it counts as exact unless an operand is returned; an exponent error is raised exactly when the exact sum's normal form has too large an exponent. |
| RealArithmetic.RealSubtract | src/bignum.c:2396-2415 | The same for the difference, said of the difference itself. |
| RealArithmetic.LargerIsSum | src/bignum.c:2346-2363 | When the operands are too far apart to scale, the larger one is within one unit of the exact sum. |
| RealArithmetic.GuardedSum | src/bignum.c:2469-2491 | The guard finds exactly the exponent sums that leave 32 bits; past it none wraps. |
| RealArithmetic.RealMultiply | src/bignum.c:2417-2520 | Of two normal reals: the product is normal and within one unit of the MAX_DIGITS-th digit of the exact product, its exactness is stated, and underflow and overflow are raised exactly when the exponents say so. |
| RealDivision.ScaleDividend | src/bignum.c:2596-2619 | The dividend gets MAX_DIGITS more digits than the divisor, its exponent lowered by as many, and underflow is reported exactly when that leaves 32 bits. |
| RealDivision.GuardedDifference | src/bignum.c:2621-2643 | The guard finds the exponent differences that leave 32 bits, all but one pair. |
| RealDivision.RealDivide | src/bignum.c:2522-2682 | Of two normal reals: the quotient is normal and exact-flagged, and within one unit of the MAX_DIGITS-th digit of the exact quotient if and only if the exponent did not wrap; not-a-number, underflow and overflow are raised exactly under the conditions stated. |
| RealDivision.NotCloseWhenWrapped | src/bignum.c:2621-2681 | With a wrapped exponent the quotient is not close. |
| RealDivision.WrapWitness | src/bignum.c:2621-2643 | Two normal reals whose division wraps. |
| Numbers.ToReal | src/bignum.c:1925-1968 | An integer is converted to the real that normalising all its digits would give. |
| Numbers.ConversionExact | src/bignum.c:1925-1968 | The converted integer has the integer's value if and only if it has only zeros beyond the MAX_DIGITS-th digit. |
| Numbers.ConversionError | src/bignum.c:1925-1968 | Whatever its size, the converted integer is within one unit of its MAX_DIGITS-th digit of the integer, towards zero. |
| Numbers.NumberEqual | src/bignum.c:2006-2073 | Two integers are compared as integers; otherwise the answer is that for the converted operands. |
| Numbers.NumberLess | src/bignum.c:2121-2296 | Two integers are ordered as integers; otherwise the answer is that for the converted operands. |
| Numbers.NumberAdd | src/bignum.c:2298-2394 | Two integers have their exact sum; otherwise the answer is the sum of the converted operands with its sign, digits and exactness, or its failure, and operands too far apart give back the larger one unconverted. |
| Numbers.MixedSumError | src/bignum.c:2298-2394 | The error of a sum of converted operands against the unconverted ones: that of the addition plus those of the conversions. |
| Numbers.NumberSubtract | src/bignum.c:2396-2415 | Two integers have their exact difference; otherwise the negation is added. |
| Numbers.NegationStands | src/bignum.c:2404-2412 | The negated operand is converted to the negated value. |
| Numbers.NumberMultiply | src/bignum.c:2417-2520 | Two integers have their exact product; otherwise the answer is the product of the converted operands, exactness included, or its failure. |
| Numbers.MixedProductError | src/bignum.c:2417-2520 | The same of a product, the conversion errors scaled by the other operand. |
| Numbers.NumberDivide | src/bignum.c:2522-2682 | The answer is always the quotient of the converted operands, exactness included, or its failure. |
| Numbers.MixedQuotientError | src/bignum.c:2522-2682 | The same of a quotient. |
| Numbers.EqualRight | src/bignum.c:2006-2073 | The step for one real: the answer is right if and only if the integer loses no digit or the answer is no. |
| Numbers.AlwaysEqualRight | src/bignum.c:2006-2073 | An integer is compared rightly for equality with every exact normal real if and only if it has only zeros beyond the MAX_DIGITS-th digit. |
| Numbers.OrderRight | src/bignum.c:2121-2296 | The order found between an integer and a real is that of the unconverted integer, unless the integer loses digits and the real is just what it is converted to. |
| Numbers.AlwaysBelowRight | src/bignum.c:2121-2296 | An integer is rightly found below every normal real below which it is, and no other, if and only if it loses no digit or is not negative; and above likewise. |
| Numbers.DigitLost | src/bignum.c:1943-1951 | One more than 10^18 is converted to 1e18. |
| Numerals.OneText | src/bignum.c:2749-2777 | Digits without a needless zero in front are the one text of the number they stand for. |
| Numerals.ParsePadded | src/bignum.c:2772-2774 | A segment written with leading zeros reads back as itself. |
| PrintRead.UnsignedAsString | src/bignum.c:2686-2780 | The text is exactly the number's decimal digits, with no needless zero in front. |
| PrintRead.IntegerAsString | src/bignum.c:2686-2780 | The text is a minus sign, exactly for a negative integer, and the decimal digits of its magnitude. |
| PrintRead.ChunksAre | src/bignum.c:3335-3404 | Digits cut into segments from the right stand for the same number, and each fits its segment. |
| PrintRead.IntegerC | src/bignum.c:3302-3431 | The result is canonical, and is the number written if and only if that is not negative, or zero, or its top chunk is not all zeros; in the other case its sign is lost. |
| PrintRead.NumeralC | src/bignum.c:3302-3431 | With unknown digits, each counting as five, and unless an exact number is asked for, the answer is an inexact real that keeps its sign; otherwise the integer. |
| PrintRead.SignLost | src/bignum.c:3394-3416 | For every segment width, a text that says -1 and is read as 1. |
| RealPrintRead.RealAsString | src/bignum.c:2854-3041 | A real prints as #i if inexact, sign, first digit, point, other digits or a zero, and the exponent of the first digit. |
| RealPrintRead.ReadMantissa | src/bignum.c:3458-3494 | The significand is the number of the digits read, an unknown digit counting as five and making the real inexact; the exponent is minus the digits after the point. |
| RealPrintRead.AddExponent | src/bignum.c:3507-3532 | The written exponent is added, or overflow or underflow reported, exactly when it should be. |
| RealPrintRead.RealC | src/bignum.c:3433-3572 | Sign, mantissa and exponent are read as the normal form of the number written, or as overflow or underflow. |
| RealPrintRead.ReadNumber | src/bignum.c:3574-3589 | A point or one of the ten exponent characters anywhere makes the text a real, inexact exactly if it has an unknown digit; anything else is a numeral. |
| RealPrintRead.Characters | src/bignum.h:266-270 | The characters of a mantissa, and the ten that start an exponent. |
| RealPrintRead.PrintThenReadInteger | src/bignum.c:2686-2780 | Every canonical integer printed and read is itself. |
| RealPrintRead.PrintThenReadReal | src/bignum.c:2996-3041 | An exact normal real whose printed exponent is in range reads back as itself, if and only if it is not of one digit with the smallest exponent. |
| RealPrintRead.SmallestUnread | src/bignum.c:3507-3532 | The real 1e-2147483648 is normal, prints, and reads as an underflow. |
| RealPrintRead.ZeroSignLost | src/bignum.h:274-275 | A zero prints the same with either sign flag. |
| RealPrintRead.PrintThenReadNumber | src/bignum.c:3232-3257 | Both round trips, through the one reader. |
| Varuint.ReadEncode | src/vm.c:858-883 | For every 64-bit value, an encoding anywhere in code reads back as its number and ends where the encoding ends, whatever follows. |
| Varuint.EncodeOrder | src/codegen.c:184-199 | A smaller number has an encoding that comes first byte by byte. |
| Varuint.OrderIff | src/codegen.c:184-199 | Byte-wise order of encodings and order of numbers decide each other. |
| Varuint.FillBig | src/codegen.c:238-246 | The loop fills the low bytes most significant first and touches nothing before them. |
| Varuint.ComputeVaruint | src/codegen.c:201-251 | At most nine of the ten bytes are used, and they are the encoding. |
| Instructions.DecodeEncode | src/vm-asm.h:35-184 | Every instruction, in each of its short and long forms, decodes to itself anywhere in code. |
| Codegen.Ia.Push | src/codegen.c:167-182 | A byte goes behind the contents, the buffer growing when it must. |
| Codegen.Ia.Append | src/codegen.c:131-147 | One buffer's contents go behind another's. |
| Codegen.Ia.Copy | src/codegen.c:155-165 | The contents become those of another buffer. |
| Codegen.IndexStable | src/codegen.c:388-453 | A constant's index does not change as the table grows. |
| Codegen.Eenv.Lookup | src/codegen.c:407-437 | The hash, or the search for nil, gives exactly the constant's one index. |
| Codegen.Eenv.LookupOrExtend | src/codegen.c:439-453 | The constant's index, the table growing by one exactly when it was not there; hash and table stay coherent. |
| Codegen.JunctionOfClauses | src/codegen.c:2251-2474 | Clauses laid out from the last one back are the same code as laid out from the first one on. |
| Codegen.Assemble | src/codegen.c:2348-2376 | The back-to-front loop with its scratch buffers yields that code. |
| Codegen.WriteBranches | src/codegen.c:1197-1260 | Conditional jump, first arm, goto and second arm, each jump counting from the end of its operand. |
| Codegen.CompileAlternative | src/codegen.c:1182-1267 | Writes the layout of a conditional, constants and hoisted functions included. |
| Codegen.CompileJunction | src/codegen.c:2251-2474 | Writes the layout of AND and OR. |
| Codegen.CompileLet | src/codegen.c:1288-1342 | Writes the layout of a let, unlinking the frame unless it is a tail let. |
| Codegen.CompileLocal | src/codegen.c:1343-1374 | Writes the layout of a local. |
| Codegen.CompileCall | src/codegen.c:1445-1490 | Writes the layout of a call, preserving state unless it is a tail call. |
| Codegen.CompileArgs | src/codegen.c:1847-1946 | Writes the layout of an argument frame. |
| Codegen.CompileAbstraction | src/codegen.c:1491-1846 | Writes CREATE-CLOSURE in place and the function's block into the byte code, behind the blocks of the functions inside it. |
| Codegen.WriteBlock | src/codegen.c:1654-1712 | The entry operand is the size of the goto; the goto's operand is the size of the function's code. |
| Codegen.Compile | src/codegen.c:568-2517 | For every tree, the bytes, blocks, constants and source numbers are those of the layout, for every later constants table. |
| Codegen.EmitSomething | src/codegen.c:2743-2785 | No tree has empty code. |
| Codegen.Generate | src/codegen.c:2743-2785 | Behind the existing byte code come all blocks, then the main code, from the program counter returned. |
| Codegen.GenerateTop | src/codegen.c:2643-2667 | A top-level form's code comes between an abort that counts its bytes, the abort's removal, and a return. |
| Correct.NearestInScope | src/vm.c:2076-2095 | Searching the stack finds the binding in force. |
| Keeping.EvalKeeps | src/vm.c:1424-1700 | Running a tree moves no frame, relinks no frame that was there, and leaves every closure's entry in place. |
| Fuel.EvalMore | src/vm.c:1424-1700 | A tree that has a value or faults does the same however much deeper calls may go. |
| Fuel.OneOutcome | src/vm.c:1424-1700 | A tree has at most one outcome, value or fault. |
| Correct.RunsAlternative | src/codegen.c:1182-1267 | The bytes of a conditional run to its end with its value, whichever jump forms were chosen, or fail as it does. |
| Correct.RunsJunction | src/codegen.c:2251-2474 | Each jump of AND and OR lands exactly at the end of the whole, with the value of the deciding clause. |
| Correct.RunsArgs | src/codegen.c:1847-1946 | The bytes of an argument list leave the stack as it was and the frame in the value register, or fail as the list does. |
| Correct.RunsFixLet | src/codegen.c:1288-1342 | A let runs its body in the new frame; the old one is put back unless the let is a tail let. |
| Correct.RunsLocal | src/codegen.c:1343-1374 | A local's frame is extended, its slot set, its body run. |
| Correct.RunsScopedLet | src/codegen.c:1993-2115 | Every dynamic or environ push meets its pop. |
| Correct.RunsTrapping | src/codegen.c:2140-2174 | Every trap push meets its pop. |
| InForce.TrapsInForce | src/evaluate.c:4489-4530 | When the body of a trap starts, the stack holds exactly one trap for each condition, the first one written on top, each with the handler's value, above what was there. |
| InForce.TestSuppressed | src/codegen.c:1182-1267 | While a test runs, failing commands raise nothing; the arm the value chooses runs as the whole conditional did. |
| InForce.ClauseSuppressed | src/codegen.c:2251-2474 | So it is in every clause of AND and OR but the last in tail position. |
| InForce.NegationSuppressed | src/codegen.c:2495-2517 | And in a negation that is not in tail position. |
| InForce.CallEnters | src/codegen.c:1445-1490 | A function is entered by a tail call with the stack as it was when the call's code started; by any other call, with the caller's frame and the address behind the call on top. |
| Correct.RunsFunction | src/vm.c:1424-1560 | A function entered with its frame runs to its return address with its value, however it leaves, the stack below as it was; it halts exactly where its arity check or its body faults. |
| Calls.BodySees | src/vm.c:955-976 | A function of I-code runs its body in a frame where slot i holds argument i and, if it takes a rest, the next slot lists the arguments left, in order; a call that does not fit is a fault. |
| Calls.BytesSee | src/codegen.c:1491-1731 | A function's code entered with a call's frame comes to its body with such a frame, linked below the closure's, if and only if the call fits; otherwise the machine halts. |
| Calls.PrimitiveRuns | src/vm.c:1424-1560 | A primitive is applied to just the arguments of the call, in order. |
| SourceCalls.ParametersSee | src/vm.c:955-976 | By name: in the body each parameter has its own argument and the last of a dotted list the list of those left; too few or too many are a fault. |
| SourceCalls.CallIsLet | src/evaluate.c:3850-3926 | A call of a dotted function and a dotted let over the same arguments give every parameter the same value. |
| SourceCalls.PrimitiveGets | src/vm.c:1424-1560 | A primitive applied in the source language gets just its arguments. |
| Correct.RunsCall | src/codegen.c:1445-1490 | A regular call comes back behind itself; a tail call returns to the caller's caller. |
| Correct.Runs | src/codegen.c:568-2517 | For every tree and any surrounding code, the bytes run exactly to their end with the tree's value and store; stack, suppression depth and frame are as before, or a tail call has returned to the address on the stack. If the tree faults the machine halts, and if it needs more calls than allowed the machine takes more steps than that. |
| Hoisting.TakesBlock | src/codegen.c:1654-1712 | A block's goto lands past the body, and the closure stored points exactly at the body. |
| Hoisting.TakesRow | src/codegen.c:1491-1731 | Any row of blocks runs straight through and leaves every function set. |
| Hoisting.OwnBody | src/codegen.c:1491-1731 | With distinct numbers, the closure made from a number runs that function's own body. |
| Hoisting.RunsForm | src/codegen.c:2743-2785 | A form with arbitrarily nested functions runs from its first byte through all blocks and main code to exactly its end, with its value, or fails as the form does. |
| Hoisting.RunsTop | src/evaluate.c:5828-5834 | A top-level form in its abort wrapper comes back to its return address with its value, nothing left on the stack, no frame and no suppression, or fails as the form does. |
| Hoisting.AbortResumes | src/vm.c:2681-2722 | When the form's own code starts, the abort on the stack leads exactly to the return behind the wrapper. |
| Staying.EvalStays | src/vm.c:1424-1700 | Where every function at hand is the program's and no code assigns a function's number, no run calls a function from elsewhere, and everything left behind is the program's. |
| Fates.OneFate | src/vm.c:6507-6509 | No run both comes out of the byte code and halts in it, nor does either and go on for ever. |
| Fates.FormFate | src/vm.c:6386-6509 | The run of a form comes out if and only if the form has a value, halts if and only if it faults, and goes on for ever if and only if it does neither. |
| Fates.OnlyValueComesOut | src/vm.c:6702-6725 | Whatever comes out does so at the return address, nothing left on the stack, with the form's value and store. |
| Pipeline.Translate | src/evaluate.c:5777-5875 | Evaluating and generating a top-level expression leaves its blocks and its code, in the abort wrapper, at the program counter returned; existing code and constants stay. |
| Pipeline.RunsExpression | src/evaluate.c:5777-5834 | For every expression, that code comes back to its return address with the value of the expression's I-code, nothing left behind, and its functions are then callable; or it fails as the I-code does. |
| Pipeline.Alone | src/codegen.c:2743-2785 | A machine holding nothing but a form's code meets what RunsExpression asks of the machine. |
| SourceCorrect.WhereIs | src/evaluate.c:1288-1341 | The address of a name leads to the activation and slot where the name is bound, from an environment that knows only names. |
| SourceCorrect.CountIs | src/evaluate.c:3094-3190 | An expression takes as many function numbers as functions are written in it. |
| SourceCorrect.AssignmentMeans | src/evaluate.c:2131-2300 | The I-code of an assignment to a name that has no binding in force changes what the name is bound to. |
| SourceCorrect.AssignmentMisses | src/vm.c:4749-4755 | With a dynamic or environ binding in force it changes the value in the table and leaves the binding. |
| ScopedAssignment.GetAfterPut | src/vm.c:2119-2155 | In the source language a name has the value last assigned to it, wherever it is bound, as the setters for bindings in force have it. |
| ScopedAssignment.AssignedValueRead | src/evaluate.c:2219-2222 | For every name, scope and value: the I-code of an assignment and then a reference yields the value assigned if and only if no binding of the name with another value is in force. |
| ScopedAssignment.BindingMissed | src/evaluate.c:2219-2222 | A program whose value is 2 and whose I-code yields 1. |
| CapturedLocals.CapturedLocalRead | src/evaluate.c:1419-1463 | For every two scopes of an activation: a function that closed over a local made in the one still sees its value after a local with another value is made in the other, if and only if the two scopes use different numbers of slots. |
| CapturedLocals.SiblingSeen | src/evaluate.c:1419-1463 | A function of one block that returns the local of the next. |
| SourceCorrect.FaithfulClosed | src/evaluate.c:3850-3957 | A let's I-code builds the frame and runs the body as the let means. |
| SourceCorrect.FaithfulLocal | src/evaluate.c:4045-4068 | A local's I-code makes and sets the slot the local has in its activation. |
| SourceCorrect.FaithfulApply | src/evaluate.c:4185-4212 | Applying a closure runs the function that was written, in the environment where it was. |
| SourceCorrect.Faithful | src/evaluate.c:4689-5775 | For every expression, environment and tail flag, the I-code has the value, the effects and the faults that the expression has by names, and needs as many calls, unless the run assigns a dynamic or environ variable with its binding in force. |
| WholePrograms.MadeFromSource | src/evaluate.c:3094-3190 | The functions in the I-code of an expression are those written in it, each with its number and the names in scope there. |
| WholePrograms.FormMatches | src/evaluate.c:5777-5834 | Form after form, the program the machine holds is the library of functions written. |
| WholePrograms.FormCalm | src/evaluate.c:5777-5834 | Form after form, a library in which no dynamic or environ variable is assigned stays one. |
| WholePrograms.FormLeads | src/codegen.c:1491-1731 | Every function written in a form is found by its number. |
| WholePrograms.FunctionHasValue | src/vm.c:5068-5078 | So a function has a closure of itself as value wherever it is written. |
| WholePrograms.OnlyOwnFunction | src/vm.c:5068-5078 | And that closure is of the function as written, over the activation whose names are in scope. |
| WholePrograms.NothingMatches | src/evaluate.c:5777-5834 | The empty program is that of the empty library. |
| WholePrograms.RunsSource | src/evaluate.c:5777-5834 | The whole chain: a top-level expression that has a value in the source language comes back from the machine with that value and those effects, and one that faults halts it, unless the run assigns a dynamic or environ variable with its binding in force; or if no such variable is assigned in the form and the library. |
| Homes.SStays | src/vm.c:1424-1700 | Where every function at hand was written in the library and closed over an activation with its names in scope, the run of an expression calls nothing else and leaves it so. |
| SourceFates.SourceFate | src/evaluate.c:5777-5834 | The run of a form's code comes out if and only if the expression has a value in the source language, halts if and only if the expression faults, and goes on for ever if and only if it does neither. |
| SourceFates.OnlySourceValue | src/vm.c:6702-6725 | Whatever comes out is the expression's value and store in the source language, nothing left on the stack. |
| Indices.NameNotLabel | src/evaluate.c:647-697 | No name has the index of a function. |
| Indices.ApartMore | src/evaluate.c:647-697 | New entries keep names and functions apart. |
| Indices.AssignmentGoesThrough | src/vm.c:4749-4755 | An assignment to a name in the tables goes through whenever its value has been found. |
| Indices.NumberForm | src/evaluate.c:3115-3128 | Taking a form's function numbers from the tables keeps all functions apart from all names. |
| ArgumentFrames.DottedFrame | src/evaluate.c:3879-3926 | The frame is built exactly when all arguments have values, evaluated left to right, and is filled with them. |
| ArgumentFrames.PlainFrame | src/evaluate.c:3805-3848 | Slot k is the k-th argument; the last slot is nil. |
| ArgumentFrames.BuildsFrame | src/codegen.c:1847-1946 | The machine builds that frame and leaves the stack as it was, or fails as the first argument without a value does. |
| ArgumentFrames.BuildsDottedFrame | src/codegen.c:1883-1903 | The machine collects the arguments after the first arity, in order, as a list in slot arity, or fails as above. |
| ArgumentFrames.ArgumentsMade | src/evaluate.c:3805-3848 | The evaluator's argument list is the one those frames are built from. |
| ArgumentFrames.DottedArgumentsMade | src/evaluate.c:3879-3926 | The same for dotted calls. |
| Frames.Activation.constructor | src/frame.c:68-97 | A frame has its parameters undefined and nil in the slot after them. |
| Frames.Activation.Extend | src/frame.c:226-256 | Old slots keep their values, new ones are undefined, and the size is the one asked for unless the frame is larger or exactly its parameters were meant. |
| Frames.Activation.Listify | src/vm.c:955-976 | The loop gathers the arguments from a slot on in that slot, in order, and changes no other. |
| Frames.Activation.ArgsAsListFrom | src/frame.c:258-274 | The arguments from a position on, in order, ending in the list of further ones. |
| Frames.Fetch | src/frame.c:143-165 | The slot of the frame so many links up, or an error when there is none. |
| Frames.Update | src/frame.c:167-190 | Exactly one slot of one frame changes, seen from every depth; a bad address changes nothing. |
| Frames.LinkFrame | src/frame.c:192-224 | The frame is linked to the other; a new one is then at depth 0, and everything else one deeper than before. |
| FrameRefinement.Fetches | src/frame.c:143-165 | Fetching in the heap is fetching from the machine's frames. |
| FrameRefinement.Updates | src/frame.c:167-190 | Updating the heap is updating the machine's frames, and fails exactly when that does. |
| FrameRefinement.Extends | src/frame.c:226-256 | Extending a frame of the heap is extending the machine's. |
| FrameRefinement.Packs | src/vm.c:955-976 | Gathering arguments in the heap is packing the machine's frame. |
| FrameRefinement.Allocates | src/frame.c:68-97 | A new frame of the heap is a new last frame of the machine. |
| FrameRefinement.Links | src/frame.c:192-224 | Linking in the heap is linking in the machine. |
| Lexical.ExtendVparams | src/evaluate.c:1381-1402 | Each parameter knows its own slot. |
| Lexical.ExtendParams | src/evaluate.c:1404-1417 | A slot for further arguments comes behind the parameters. |
| Lexical.ExtendLocal | src/evaluate.c:1419-1463 | A local gets the slot after everything its frame holds. |
| Lexical.GrownByExtension | src/evaluate.c:1379-1476 | Every extension of a well-grown nametree is one. |
| Lexical.LexicalLookup | src/evaluate.c:1288-1341 | The loop finds the innermost level with the name, counting only parameter levels. |
| Lexical.BelowBase | src/evaluate.c:1419-1463 | Every slot found in the current frame lies below the first free one. |
| Lexical.AddressOwner | src/evaluate.c:1288-1341 | The address found for a name belongs to that name. |
| Lexical.AddressesDistinct | src/evaluate.c:1288-1341 | Two visible names never share an address. |
| Lexical.ScopedShiftsNothing | src/evaluate.c:1465-1476 | A dynamic or environ level shifts no address. |
| Lexical.NametreeToList | src/evaluate.c:1343-1377 | The loop lists the names of the current frame, innermost last. |
| Lexical.RoomForLocals | src/evaluate.c:4045-4068 | That list is long enough: a frame extended by it has every local's slot. |
| Bindings.FetchFinds | src/frame.c:143-165 | Fetching at a name's address on a matching frame chain gives its innermost binding. |
| Bindings.EnterKeeps | src/evaluate.c:3094-3190 | Entering a function keeps frames and names matching. |
| Bindings.LocalKeeps | src/evaluate.c:4045-4068 | Making a local finds room for it and keeps frames and names matching. |
| Bindings.AssignKeeps | src/evaluate.c:2131-2300 | Assigning at a name's address changes its innermost binding and no other. |
| Evaluate.NoDefineTail | src/evaluate.h:52 | NO_DEFINE yields the tail flag if and only if no flag but DEFINE was set. |
| Evaluate.NoDefineOfNothing | src/evaluate.h:52 | Three sets of flags of which it makes a tail position. |
| Evaluate.AssignedNeverTail | src/evaluate.c:2188-2190 | With any scope bit set, as an assignment has, the value is never a tail position, define flag or not. |
| Evaluate.ScopesAreSet | src/evaluate.h:45-48 | Toplevel, dynamic, environ and computed scope each set such a bit. |
| Evaluate.TailPlaces | src/evaluate.c:4689-5775 | For every expression, tail calls and tail lets are made only where nothing but the return remains. |
| Evaluate.TailApplication | src/evaluate.c:4185-4212 | The same of applications: only the call itself may be a tail call. |
| Evaluate.TailClosed | src/evaluate.c:3850-3957 | The same of closed applications. |
| Marks.MarksAre | src/evaluate.c:4689-5775 | For every expression: the calls and lets in tail position, and only they, are tail ones; every failing node records its source; operators that are top-level names are fetched to be called; frames carry the names of their slots, in order. |
| Numbering.Numbered | src/evaluate.c:3094-3190 | The functions made from an expression have the numbers it took, each one once. |
| Numbering.ClosuresRunTheirBodies | src/codegen.c:1491-1846 | In any form the evaluator makes, every closure runs its own function's body, and the form satisfies the tail condition. |
| Quasiquote.DequasiquoteMeans | src/evaluate.c:1735-1920 | At every level, where none of the names the expansion uses is bound, evaluating it gives the template's value, said case by case: unquotes, splices, dotted tails, quasi-quotations one level up, kept unquotes one level down, arrays, errors. |
| Quasiquote.UnquoteEvaluated | src/evaluate.c:1801-1845 | Under any quasi-quotations and unquotes, an unquoted part is evaluated if and only if the unquotes with it balance the quasi-quotations and the starting level; otherwise it is kept, with what is in it one level lower. |
| Quasiquote.Captured | src/evaluate.c:1922-1945 | Any value that is no function, bound to a name the expansion uses, leaves it without a value. |
| Quasiquote.BindingHarmless | src/evaluate.c:1922-1945 | A template that has a value keeps its meaning under every binding of a name if and only if its expansion does not use the name. |
| Quasiquote.PlainTemplate | src/evaluate.c:1735-1920 | The value of a template without unquotes is the template if and only if its quasi-quotations have one argument each. |
| Quasiquote.PlainExpansion | src/evaluate.c:1735-1945 | The same of the evaluated expansion, where none of the names it uses is bound. |
| Quasiquote.PlainBindingHarmless | src/evaluate.c:1922-1945 | Such a template is its own value under every binding of a name if and only if its expansion does not use the name. |
| Quasiquote.PairRebound | src/evaluate.c:4214-4230 | Where pair is bound to a function of the user's, the template (1) is whatever that function returns. |
| Quasiquote.ArgumentDropped | src/evaluate.c:1801-1817 | A template that loses an argument. |
| BodyRewrite.RewriteBody | src/evaluate.c:3265-3517 | The loop with its reversed accumulator computes the rewriting, and ends. |
| BodyRewrite.RewriteLetrec | src/evaluate.c:3529-3746 | The same of a group of definitions. |
| BodyRewrite.BeginsRedundant | src/evaluate.c:3290-3306 | A begin in a body is the same as its contents. |
| BodyRewrite.GroupGathered | src/evaluate.c:3529-3746 | A run of definitions is gathered whole. |
| BodyRewrite.ScopesKept | src/evaluate.c:3265-3746 | Every expression but those of the last introductions appears once, in source order, its value going to its own name, seeing just the names it should, each introduced the way it was written. |
| BodyRewrite.BodyKept | src/evaluate.c:3265-3746 | For any body, expressions and scopes survive if and only if it does not end by introducing values. |
| BodyRewrite.LastIntroductionLost | src/evaluate.c:3265-3517 | A body whose one expression never runs. |
| BodyRewrite.RewriteFails | src/evaluate.c:3265-3746 | A body is refused if and only if it defines a template inside, or ends in a definition. |
| BodyRuns.RunsSame | src/evaluate.c:3265-3746 | Every body that does not end by introducing a value runs, rewritten, as the source says: value, effects in order, failures, and what is assigned outside. |
| BodyRuns.GroupDefines | src/evaluate.c:3697-3735 | After a group of definitions each name has the value of its own expression, and no other name has changed. |
| BodyRewrite.Stable | src/evaluate.c:4045-4068 | A rewritten body rewritten again is unchanged. |
| BodyRewrite.StableInside | src/evaluate.c:4057 | The bodies of the lets made, at any depth, are unchanged by rewriting as well. |
| Cond.RewriteLegal | src/evaluate.c:1974-2129 | The rewriting succeeds if and only if the clauses are legal. |
| Cond.CondNotCaptured | src/evaluate.c:2060-2082 | Binding the fresh temporary changes nothing a later clause can see. |
| Cond.RewriteMeans | src/evaluate.c:1974-2129 | The rewritten expression has the value, effects in order, and failures of cond: each test at most once, up to the first true one. |
| SymbolTables.Intern | src/evaluate.c:583-616 | A symbol's index, the table growing exactly when it was not there, hash and table coherent. |
| SymbolTables.Tables.Extend | src/evaluate.c:647-697 | Symbol and value table grow together; every index still leads to its own name, and no two entries share one. |
| SymbolTables.Tables.ExtendOperators | src/evaluate.c:699-741 | The same for operators, whose entries are kept apart. |
| SymbolTables.Tables.Find | src/evaluate.c:743-856 | A known name changes nothing and yields its newest entry; an unknown one gets one new entry whose scope and value place are spelled out for each place the name can come from. |
| SymbolTables.Tables.IndicesDistinct | src/evaluate.c:647-697 | Two entries never share an index. |
| SymbolTables.Tables.NameOf | src/evaluate.c:647-741 | From any index back through the symbol table to the entry's own name. |

## Left out

- Names and documentation strings of functions, which are constants of their blocks.
- Escapers, continuations, what an abort does, and the running of trap handlers: pushes and pops of aborts and traps are modelled, and where an abort resumes, not what a raised condition does with them.
- Templates, user-defined operators' expanders, `include`, commands, jobs and the module system: they run user or system code during compilation; what the module system says of a name is a parameter of `Tables.Find`.
- Definitions of top-level symbols at run time (SYM-DEF), computed variables and predefined references as instructions; reading an unbound symbol, which the machine turns into a command name, is a fault here.
- The FINISH instruction: a form called from C returns to it, which is a return address outside the byte code here.
- Several execution environments: an index in the symbol table and the index of its value are one number.
- Correct.Runs: nothing is said of a tree that calls a function from outside the program or assigns a function's own number; `Staying.EvalStays` says when none does.
- Hoisting.RunsForm: the same; it also takes code and constants tables to be shorter than 2^64.
- Primitives are any partial function of their arguments; they do not change frames or variables. Mutable constants are not copied when referenced, and source expressions are only counted.
- SourceCorrect.Faithful: an activation has slots for its parameters and the locals in scope, in `Source` as in the machine; what that does to a captured local is the subject of `CapturedLocals`.
- WholePrograms.RunsSource: call depth is bounded by a fuel parameter over which every theorem quantifies, and more of it changes nothing (`Fuel.EvalMore`). Names are looked up in the tables before a form's functions are numbered, so that their numbers are consecutive.
- SourceFates.SourceFate: for forms and libraries that assign no dynamic or environ variable, and whose functions, names and values are in order as `AtHome` says.
- Bindings.LocalKeeps: closures that captured a sibling block's local in a slot used again are not spoken of there but in `CapturedLocals`.
- Cond.RewriteMeans: the expansion of the `let` template into a closed application is taken as given.
- LongArithmetic.ShiftLeft: non-negative numbers only; every caller passes magnitudes or significands.
- LongArithmetic.ShiftRight: non-negative numbers only, as above.
- RealPrintRead.RealAsString: the default format only; precision settings and the other formats are not modelled.
- Numbers.ToReal: integers of at most 2^31 - 1 digits, beyond which the exponent counter would wrap.
- RealPrintRead.RealC: at most 2^31 decimal places, and an exponent that does not fit 64 bits counts as overflow or underflow instead of a conversion error.
- Conversions to and from C integers and floats, floor, the sanity limit of 200 segments, garbage collection and debug assertions.
- Codegen.Generate: source numbers are written modulo 2^64; 8-, 32- and 64-bit fixed-width operands other than those of the modelled instructions are not modelled.
- BodyRewrite.RewriteBody: an internal template definition is an error here, as no expander is modelled.
