# The pricing pipeline, from ticks to clients

This project models the option pricing system in Dafny and proves what its parts promise, on all
inputs and over all runs. Market ticks and klines reach a C++ pricing engine. A parameter estimator
buffers the observations and fits an order alpha and a volatility sigma to each full buffer. The
engine prices every option tick it knows enough about and hands the estimation to a sink, which
encodes it as a 40-byte packet. A Go feeder receives the packets, decodes them and broadcasts the
observations to its clients through a lossy broker.

| module | what it holds |
|---|---|
| `Gf2` | polynomials over GF(2), division and the uniqueness of remainders |
| `Crc32` | the CRC-32 loops, what they compute and which changes they detect |
| `Endian` | byte swaps and the two byte orders a host can have |
| `Protocol` | the packet, the C++ writer and reader, and Go's reader |
| `FixedPoint` | the sink's fixed-point prices and the decimal prices the feeder makes of them |
| `Models` | ticks, klines, options and estimations |
| `Caputo` | the L1 scheme for the Caputo derivative over exact reals |
| `Numerics`, `Loss` | doubles with infinities and NaN; the loops of the loss |
| `GridSearch`, `Batches`, `Estimator` | the search, the sorted batch, the estimator object |
| `Pricing`, `ClosedForm` | the price of one option, simulated and in closed form |
| `Engine` | the engine object and its emissions |
| `Broker`, `Feeder` | the broker with its clients, and the whole feeder, as transition systems |
| `Pipeline` | engine, sink and feeder joined |
| `Arithmetic` | facts of arithmetic that several modules use |

How the code becomes the model:

- **The estimator and the engine** are classes with the source's fields. Their methods are proved
  against the history of calls, which ghost fields keep. The engine's history says, for every input, which
  parameters its ticks were handled with and which of them were handled. `pow`, `tgamma`, `exp`, `sqrt`,
  `log` and `erf` are parameters, and each statement names what it assumes of them:
  `Caputo.PowerLike`, `Loss.Sound`, `Loss.FlatAtOne`, `Loss.StrictBelowOne`, and the predicates at the head of `Pricing` and
  `ClosedForm`. The random draws and
  the time to expiration are inputs.
- **The broker and the feeder** are transition systems. Every channel send, every receive and every
  single non-blocking offer inside a broadcast is an action of its own; `Broker.Run` and `Feeder.Run`
  say where a sequence of actions leads if each is enabled in its turn. A statement about all runs is
  therefore one about all interleavings, all orders of the subscription map and all choices of
  `select`. Each client's channel keeps a log of what happened to it, and `Broker.Scan` reads it.
  `Broker.BrokerLoop` is the source's loop: it ends in exactly the state that the choices of `select`
  lead to, and every step it takes is one of the loop's actions.
- **Errors** are results: the reader's exception for a short buffer, the engine's for an alpha out of
  range and for an unknown code.

Where the code and what it says of itself differ, the model follows the code:

- The engine accepts alpha = 1, although its message says that alpha must lie in (0, 1).
- The feeder's instrument table never reports a missing code, so both of the decoder's errors for
  unknown instruments are dead branches and an unknown code yields the empty instrument.
- Nobody checks the CRC of a received packet. The statements on detection say that recomputing it
  would tell.
- A subscription and its cancellation travel through different channels, so the broker can see them
  in the wrong order. `Broker.AbandonedChannelRun` is such a run; `Broker.QuietMap` says exactly when
  the map is the set of clients present.
- A packet whose checksum field is zero is sealed again by the writer, so writing back what was read
  need not give the same bytes; `Protocol.RewriteIff` says when it does, and
  `Protocol.SomeFrameChanges` gives a frame for which it does not.

## Model

| member | source | states |
|---|---|---|
| Crc32.StepIsConditionalXor | include/libtfbsm/interactions/protocol/crc32.h:16 | the arithmetic mask adds the polynomial exactly when the low bit of the register is set |
| Crc32.StepBijective | include/libtfbsm/interactions/protocol/crc32.h:16 | the one-bit step has a two-sided inverse: it loses no information |
| Crc32.StepLinear | include/libtfbsm/interactions/protocol/crc32.h:16 | the one-bit step is linear over exclusive or |
| Crc32.StepIsTimesX | include/libtfbsm/interactions/protocol/crc32.h:16 | the one-bit step multiplies the register's polynomial by x modulo the generator |
| Crc32.RunLinear | include/libtfbsm/interactions/protocol/crc32.h:13-18 | the register is linear in start and message together |
| Crc32.RunInjective | include/libtfbsm/interactions/protocol/crc32.h:13-18 | two different registers never meet, whatever bits follow |
| Crc32.FeedIsAddThenStep | include/libtfbsm/interactions/protocol/crc32.h:13-18 | up to 32 bits fed one by one equal their word added at once, then as many steps |
| Crc32.WordIsAbsorbed | include/libtfbsm/interactions/protocol/crc32.h:13-18 | a register of up to 32 bits is brought to zero by feeding its own bits |
| Crc32.MessageBitAt | include/libtfbsm/interactions/protocol/crc32.h:13-15 | which bit of which byte enters at each position of the message |
| Crc32.ComputeCrc32 | include/libtfbsm/interactions/protocol/crc32.h:10-21 | the nested loops compute the checksum of the first `length` bytes, bit by bit |
| Crc32.RunIsDivision | include/libtfbsm/interactions/protocol/crc32.h:13-18 | after any bits the register is congruent to start and message as one polynomial |
| Crc32.ChecksumIsRemainder | include/libtfbsm/interactions/protocol/crc32.h:10-21 | the complemented result is the remainder of the message, ones added to its first 32 bits, modulo the generator of section 8 of RFC 1952, and no other polynomial of degree below 32 is |
| Gf2.RemainderUnique | include/libtfbsm/interactions/protocol/crc32.h:10-21 | remainders modulo a polynomial are unique, so the remainder is well defined |
| Gf2.FromBitsCoefficients | include/libtfbsm/interactions/protocol/crc32.h:10-21 | the polynomial of a bit string has exactly the string's coefficients |
| Crc32.SameChecksumIff | include/libtfbsm/interactions/protocol/crc32.h:10-21 | two messages of one length collide if and only if their difference is a multiple of the generator |
| Crc32.BurstIsDetected | include/libtfbsm/interactions/protocol/crc32.h:10-21 | different messages that agree outside 32 consecutive bits have different checksums |
| Crc32.FourByteChangeIsDetected | include/libtfbsm/interactions/protocol/crc32.h:10-21 | so do different messages that agree outside four consecutive bytes |
| Endian.WriteIsBigEndian | include/libtfbsm/interactions/protocol/protocol.hpp:33-57 | swapping and storing gives network order on a host of either endianness |
| Endian.ReadIsBigEndian | include/libtfbsm/interactions/protocol/protocol.hpp:33-65 | loading and swapping reads network order on a host of either endianness |
| Endian.ReadWrite | include/libtfbsm/interactions/protocol/protocol.hpp:51-65 | reading the network bytes of a word gives the word |
| Endian.WriteRead | include/libtfbsm/interactions/protocol/protocol.hpp:51-65 | writing the word read from bytes gives the bytes |
| Protocol.Write32 | include/libtfbsm/interactions/protocol/protocol.hpp:91-95 | four big-endian bytes land at the offset, all else stays, on either host |
| Protocol.Write64 | include/libtfbsm/interactions/protocol/protocol.hpp:97-101 | eight big-endian bytes land at the offset, all else stays, on either host |
| Protocol.Serialize | include/libtfbsm/interactions/protocol/protocol.hpp:86-118 | the 40 bytes are the layout `Encode`, the same on either host, with a zero checksum replaced by that of the body |
| Protocol.Read32 | include/libtfbsm/interactions/protocol/protocol.hpp:128-132 | reads the big-endian word at the offset on either host |
| Protocol.Read64 | include/libtfbsm/interactions/protocol/protocol.hpp:134-138 | reads the big-endian double word at the offset on either host |
| Protocol.Deserialize | include/libtfbsm/interactions/protocol/protocol.hpp:120-149 | finds the packet of the layout, the same on either host, or reports a short buffer |
| Protocol.RoundTrip | include/libtfbsm/interactions/protocol/protocol.hpp:86-149 | reading what was written, whatever follows, gives the packet with its checksum filled in, and that is written as the same bytes |
| Protocol.RewriteIff | include/libtfbsm/interactions/protocol/protocol.hpp:86-149 | writing what was read gives the same bytes unless the checksum field is zero and the body's checksum is not |
| Protocol.SomeFrameChanges | include/libtfbsm/interactions/protocol/protocol.hpp:110-115 | a frame that is not reproduced: its checksum field is zero and its body has a non-zero checksum |
| Protocol.EncodeInjective | include/libtfbsm/interactions/protocol/protocol.hpp:86-118 | two packets share their bytes if and only if they agree once their checksums are filled in |
| Protocol.GoReadsTheSamePacket | feeder/pkg/core/domain/observation_dto.go:16-25 | Go's field-by-field decoder accepts the same frames as the C++ reader and finds the same values in the same order |
| Protocol.GoReadFields | feeder/pkg/app/root.go:65-70 | from any field on, the decoder takes its bytes at the packet's fixed offsets, and fails on any shorter frame |
| Protocol.OneWordChangeIsDetected | include/libtfbsm/interactions/protocol/protocol.hpp:103-115 | two packets that differ in one 32-bit word of their fields are sent with different checksums |
| FixedPoint.DecimalDivExactIff | feeder/pkg/core/domain/observation_dto.go:41-45 | the decimal quotient is exact if and only if 16 decimals suffice for it |
| FixedPoint.DecimalDivExact | feeder/pkg/core/domain/observation_dto.go:41-45 | up to 16 decimals the decoder rounds nothing |
| FixedPoint.PriceSurvives | src/libtfbsm/interactions/zmq_price_sink.cpp:23-24 | a price comes back truncated to its e decimals, off by less than one unit of the last, and encodes as the same integer again |
| FixedPoint.RoundedIff | feeder/pkg/core/domain/observation_dto.go:41-45 | the last decimal of a quotient is the nearest one, ties going up, and no other |
| FixedPoint.PriceIsClose | src/libtfbsm/interactions/zmq_price_sink.cpp:23-24 | for any exponent, a price is off by less than a unit of its last decimal plus half a unit of the sixteenth, and too high by no more than the latter |
| FixedPoint.OrderSurvives | src/libtfbsm/interactions/zmq_price_sink.cpp:23-24 | the order of prices survives encoding and decoding, for any exponent |
| FixedPoint.SignedRoundTrip | src/libtfbsm/interactions/zmq_price_sink.cpp:25 | every signed 64-bit time in milliseconds survives the unsigned field and the cast back |
| FixedPoint.SinkFrameHolds | src/libtfbsm/interactions/zmq_price_sink.cpp:16-29 | what stands where in a frame: codes, exponent, prices as whole numbers of the last decimal, milliseconds, and the checksum of all that |
| FixedPoint.Thirds | feeder/pkg/core/domain/observation_dto.go:43-45 | one third has sixteen decimals, and two thirds are rounded up |
| FixedPoint.EndToEnd | src/libtfbsm/interactions/zmq_price_sink.cpp:16-29 | through sink, wire and decoder: known codes show their own names, unknown ones none, the time is off by less than a millisecond towards zero, both prices are truncated to e decimals |
| Caputo.SlopesIncrease | src/libtfbsm/core/parameter_estimator.cpp:57-62 | for a concave power, the weight per unit of time grows towards the newest sample |
| Caputo.SumBelowMaximum | src/libtfbsm/core/parameter_estimator.cpp:55-63 | Abel summation of the loop: partial sum plus the rise still to come is at least the whole rise at the first slope |
| Caputo.MaximumPrinciple | src/libtfbsm/core/parameter_estimator.cpp:48-65 | at a maximum so far the discrete derivative is non-negative, and at least the rise since the start times the first slope over Gamma |
| Caputo.MinimumPrinciple | src/libtfbsm/core/parameter_estimator.cpp:48-65 | at a minimum so far it is not positive |
| Caputo.Linear | src/libtfbsm/core/parameter_estimator.cpp:54-64 | it is linear in the series |
| Caputo.ExactOnAffine | src/libtfbsm/core/parameter_estimator.cpp:54-64 | on an affine series it is exact on every strictly increasing grid; on a constant one it is zero (definition: README.md:27-33) |
| Loss.CaputoL1Approximation | src/libtfbsm/core/parameter_estimator.cpp:48-65 | the loop with the C++ meaning of division by zero, NaN and infinity, on any series |
| Loss.LossFunction | src/libtfbsm/core/parameter_estimator.cpp:67-81 | the mean squared residual with the same meaning, for any series, the empty one included |
| Loss.LossIsFinite | src/libtfbsm/core/parameter_estimator.cpp:67-81 | with strictly increasing times no infinity or NaN appears: the loss is the mean squared residual over the reals |
| Loss.LossIsNaN | src/libtfbsm/core/parameter_estimator.cpp:54-80 | one repeated time makes the loss NaN at every alpha and sigma, for any prices |
| Numerics.LessOrders | src/libtfbsm/core/parameter_estimator.cpp:109 | the comparison of losses is a strict order on all doubles but NaN, which is below and above nothing |
| Loss.ErrShifts | src/libtfbsm/core/parameter_estimator.cpp:67-81 | the loss depends on differences of times only |
| Loss.ErrIsQuadratic | src/libtfbsm/core/parameter_estimator.cpp:73-80 | with s = sigma^2 the summed loss is A + 2sB + s^2 C with C non-negative |
| Loss.BetterSigmaIff | src/libtfbsm/core/parameter_estimator.cpp:73-80 | which of two sigmas fits better, exactly, by the sign of 2B + (s + u)C |
| Loss.LossIsUnimodal | src/libtfbsm/core/parameter_estimator.cpp:73-80 | as sigma^2 grows, a loss that has stopped falling never falls again |
| Loss.RisingPricesCorrelate | src/libtfbsm/core/parameter_estimator.cpp:67-81 | B is non-negative for every non-decreasing series of non-negative prices |
| Loss.ErrAboveFlat | src/libtfbsm/core/parameter_estimator.cpp:73-80 | for such prices the summed loss is at least that of a zero derivative, which is s^2 C |
| Loss.ErrStrictlyAboveFlat | src/libtfbsm/core/parameter_estimator.cpp:73-80 | and exceeds it at every alpha below 1 if a price rose |
| Loss.ErrAtOne | src/libtfbsm/core/parameter_estimator.cpp:54-80 | at alpha = 1 the weights vanish, and the summed loss is s^2 C |
| GridSearch.Search | src/libtfbsm/core/parameter_estimator.cpp:99-116 | the two loops store the first unbeaten point in alpha-major order, or the defaults when no loss is below the largest double |
| GridSearch.GridIsComplete | src/libtfbsm/core/parameter_estimator.cpp:104-106 | every pair of steps of 0.01 from 0.1 and 0.05 up to 1 is a grid point |
| GridSearch.GridIsOrdered | src/libtfbsm/core/parameter_estimator.cpp:104-106 | the grid is visited alpha first, from (0.1, 0.05) to (1, 1) |
| GridSearch.ChosenUnique | src/libtfbsm/core/parameter_estimator.cpp:99-120 | the series determines what is stored |
| GridSearch.ChosenInRange | src/libtfbsm/core/parameter_estimator.cpp:99-120 | alpha is in [0.1, 1.0] and sigma in [0.05, 1.0] whatever the series |
| GridSearch.RepeatedTimeGivesDefault | src/libtfbsm/core/parameter_estimator.cpp:99-120 | a repeated time makes every comparison fail, and exactly alpha = 1.0 and sigma = 0.2 are stored |
| GridSearch.ChosenIsFirstMinimum | src/libtfbsm/core/parameter_estimator.cpp:99-120 | with strictly increasing times the first global minimiser over the whole grid is stored, or the defaults if no residual is below the largest double |
| GridSearch.FirstSigmaBetterIff | src/libtfbsm/core/parameter_estimator.cpp:104-116 | when sigma = 0.05 fits as well as another point of its row |
| GridSearch.FirstSigmaBestIff | src/libtfbsm/core/parameter_estimator.cpp:104-116 | each row is such that its first sigma is best if and only if it is no worse than the second |
| GridSearch.RowIsUnimodal | src/libtfbsm/core/parameter_estimator.cpp:106-115 | along the row of one alpha, the loss never falls again once it has stopped falling |
| GridSearch.SmallestSigmaIff | src/libtfbsm/core/parameter_estimator.cpp:99-120 | when some loss is below the largest double, sigma = 0.05 is stored if and only if it fits no worse than 0.06 at the stored alpha |
| GridSearch.FirstSigmaWinsEverywhere | src/libtfbsm/core/parameter_estimator.cpp:99-120 | if that holds at every alpha of the grid, the search ends at sigma = 0.05, or in the defaults |
| GridSearch.CorrelationGivesSmallestSigma | src/libtfbsm/core/parameter_estimator.cpp:99-120 | so it does wherever B is non-negative in every row |
| GridSearch.RisingPricesGiveSmallestSigma | src/libtfbsm/core/parameter_estimator.cpp:99-120 | for non-decreasing non-negative prices the search ends at sigma = 0.05, or in the defaults |
| GridSearch.RisingPricesFitAtOne | src/libtfbsm/core/parameter_estimator.cpp:99-116 | for non-decreasing non-negative prices alpha = 1 and sigma = 0.05 is a global minimiser of the whole grid |
| GridSearch.RisingPricesDecide | src/libtfbsm/core/parameter_estimator.cpp:99-120 | exactly what is stored for such prices: the defaults if sigma^4 times the sum of v[1]^2, v[2]^2, ... over N, at sigma = 0.05, is not below the largest double; otherwise sigma = 0.05 with alpha = 1 if any price rose, and alpha = 0.1 if none did |
| Batches.SortByTime | src/libtfbsm/core/parameter_estimator.cpp:87-88 | the batch is sorted by time and none of its observations is lost or added |
| Batches.TimesAreTruncated | src/libtfbsm/core/parameter_estimator.cpp:95 | each time of the series is the observation's in whole units of a thousand clock ticks, towards zero |
| Batches.TimesCollideIff | src/libtfbsm/core/parameter_estimator.cpp:95 | two times that are not negative collide if and only if they lie in one unit |
| Batches.SortingUnique | src/libtfbsm/core/parameter_estimator.cpp:87-88 | distinct times leave the sort no choice |
| Batches.RepeatedTimesGiveDefault | src/libtfbsm/core/parameter_estimator.cpp:87-120 | two observations anywhere in a batch whose truncated times agree force the defaults |
| Batches.ArrivalOrderDoesNotMatter | src/libtfbsm/core/parameter_estimator.cpp:87-120 | any permutation of a batch, sorted in any way, gets the same parameters, with or without distinct times |
| Batches.OriginDoesNotMatter | src/libtfbsm/core/parameter_estimator.cpp:87-120 | moving all non-negative times by the same number of truncation units changes nothing |
| Batches.DistinctTimesGiveFirstMinimum | src/libtfbsm/core/parameter_estimator.cpp:83-120 | a batch of distinct truncated times gets the first global minimiser of its sorted series |
| Batches.FitsInRange | src/libtfbsm/core/parameter_estimator.cpp:83-120 | whatever the batch, the stored alpha is one the engine accepts |
| Batches.RisingBatchGetsAlphaOne | src/libtfbsm/core/parameter_estimator.cpp:83-120 | a batch whose prices never fall with time and rise at least once gets alpha = 1, with or without repeated times |
| Estimator.NothingLost | src/libtfbsm/core/parameter_estimator.cpp:7-46 | over any calls, batches taken followed by the buffer are all observations in order; every batch is full and the buffer is not |
| Estimator.BatchesStay | src/libtfbsm/core/parameter_estimator.cpp:7-12 | later calls never change the batches taken, so parameters once known stay known |
| Estimator.SingleTicks | src/libtfbsm/core/parameter_estimator.cpp:7-17 | n single ticks make n / capacity estimates and leave n mod capacity buffered |
| Estimator.ParameterEstimator.Estimate | src/libtfbsm/core/parameter_estimator.cpp:83-123 | a full buffer is sorted and its parameters stored; a buffer not full changes nothing |
| Estimator.ParameterEstimator.OptionsBufferIsFull | src/libtfbsm/core/parameter_estimator.cpp:7-12 | a full buffer becomes one batch with fitting parameters and is emptied; otherwise nothing changes |
| Estimator.ParameterEstimator.OnTick | src/libtfbsm/core/parameter_estimator.cpp:14-17 | the object stays where the stream of all its calls leads, half the sum of this bid and ask included |
| Estimator.ParameterEstimator.OnTicks | src/libtfbsm/core/parameter_estimator.cpp:19-32 | the same for a batch of ticks, with one capacity check at its end |
| Estimator.ParameterEstimator.OnKlines | src/libtfbsm/core/parameter_estimator.cpp:34-46 | the same for a batch of klines, by their closing prices |
| Estimator.ParameterEstimator.GetParameters | src/libtfbsm/core/parameter_estimator.cpp:126-131 | parameters are given exactly when some batch has been taken, and they are in range |
| Pricing.SamplePath | src/libtfbsm/core/pricing_engine.cpp:91-118 | one pass of the loop body computes the discounted payoff of its draw, T standing in for a power that is not finite or not positive; for an expired option it computes NaN |
| Pricing.OperationalTimeLaw | src/libtfbsm/core/pricing_engine.cpp:92-101 | the operational time times the power of the draw's size is the power of T, for draws of either sign |
| Pricing.LargerDrawShorterTime | src/libtfbsm/core/pricing_engine.cpp:92-101 | a larger draw gives no longer an operational time |
| Pricing.OperationalTimeScales | src/libtfbsm/core/pricing_engine.cpp:94 | k times the time to expiration gives the power of k times the operational time |
| Pricing.DiscountUndoesRate | src/libtfbsm/core/pricing_engine.cpp:118 | a path is discounted by what the rate earns over its operational time |
| Pricing.GrowthRises | src/libtfbsm/core/pricing_engine.cpp:105-107 | a path grows no less for a higher normal draw |
| Pricing.PayoffsSplit | src/libtfbsm/core/pricing_engine.cpp:109-114 | only one of call and put pays, and it pays the difference of spot price and strike |
| Pricing.OutOfTheMoney | src/libtfbsm/core/pricing_engine.cpp:109-128 | a simulation in which no path ends in the money is worth nothing |
| Pricing.MonteCarlo | src/libtfbsm/core/pricing_engine.cpp:87-128 | the loop returns the mean discounted payoff of the draws, NaN for an expired option; the square of the mean is at most the mean of the squares it sums |
| Pricing.SimulatedParity | src/libtfbsm/core/pricing_engine.cpp:91-128 | on the same draws call minus put is the mean discounted forward |
| Pricing.CallConvexInStrike | src/libtfbsm/core/pricing_engine.cpp:91-128 | on the same draws the simulated call is convex in the strike |
| Pricing.CallInStrike | src/libtfbsm/core/pricing_engine.cpp:91-128 | it does not rise with the strike, and falls by no more than the discounted difference of strikes |
| Pricing.CallInSpot | src/libtfbsm/core/pricing_engine.cpp:91-128 | it does not fall when the spot price rises |
| Pricing.SumsGiveVariance | src/libtfbsm/core/pricing_engine.cpp:87-121 | for any sample size times the sum of squares is at least the squared sum; the loop's two sums are an instance, as `MonteCarlo` states |
| ClosedForm.ClosedFormParity | src/libtfbsm/core/pricing_engine.cpp:131-162 | put-call parity of the closed form, before and after expiration, from `erf` being odd alone |
| Pricing.MirrorPaths | src/libtfbsm/core/pricing_engine.cpp:94-118 | the discounted growth of a path and of its mirror image: their product and their quotient are those of a log-normal price with variance sigma^2 e and no drift beyond the discount |
| ClosedForm.DensitiesBalance | src/libtfbsm/core/pricing_engine.cpp:149-151 | d1 and d2 balance: the normal density at d1 weighs the spot as that at d2 weighs the strike's present value |
| ClosedForm.NormCdfSlope | src/libtfbsm/core/pricing_engine.cpp:153-155 | the normal distribution function is one half at zero and rises with a slope proportional to exp(-x^2 / 2), given the slope of `erf` |
| ClosedForm.AtTheForward | src/libtfbsm/core/pricing_engine.cpp:149-159 | where the spot price is the strike's present value, the call is worth the spot price times `erf` of half the deviation over the root of two |
| ClosedForm.ClosedFormNonNegative | src/libtfbsm/core/pricing_engine.cpp:131-162 | the closed form never gives a negative price of a call or a put, from the normal distribution function growing faster than its density |
| ClosedForm.ClosedFormCases | src/libtfbsm/core/pricing_engine.cpp:149-161 | what the code computes on any spot price and strike: the closed form where their quotient is positive, the limits where one of them is zero, NaN elsewhere |
| ClosedForm.ComputedParity | src/libtfbsm/core/pricing_engine.cpp:131-162 | put-call parity of what is computed, whenever it is a number, and when that is |
| ClosedForm.ComputedNonNegative | src/libtfbsm/core/pricing_engine.cpp:131-162 | what is computed is a number and not negative, for a spot price that is not negative and a positive strike |
| Pricing.SimulatedNonNegative | src/libtfbsm/core/pricing_engine.cpp:91-128 | nor does the simulation |
| Engine.EstimatePrice | src/libtfbsm/core/pricing_engine.cpp:65-129 | fails exactly for an alpha outside (0, 1]; at alpha = 1 the closed form, infinite logarithms and NaN included, below it the simulation, which is NaN for an expired option |
| Engine.SimulatedPriceIs | src/libtfbsm/core/pricing_engine.cpp:85-128 | for alpha up to 0.99 the price is the mean of 50000 discounted payoffs, each written out with rate, sigma, alpha and its draws |
| Engine.ClosedFormAtOneOnly | src/libtfbsm/core/pricing_engine.cpp:77-79 | of the grid's alphas only 1 takes the closed form |
| Engine.PricingEngine.HandleTick | src/libtfbsm/core/pricing_engine.cpp:30-63 | adds one event with the parameters the estimator has then; throws exactly when everything but a code is known; emits exactly when everything is known, and what it emits reports the tick |
| Engine.PricingEngine.HandleAll | src/libtfbsm/core/pricing_engine.cpp:16-18 | handles a batch in order up to and including the first tick that throws, and throws exactly then |
| Engine.PricingEngine.OnTick | src/libtfbsm/core/pricing_engine.cpp:7-9 | the tick reaches the estimator once, then is handled once with the parameters then known, and throws exactly when that does |
| Engine.PricingEngine.OnTicks | src/libtfbsm/core/pricing_engine.cpp:11-19 | the batch reaches the estimator once as a whole; its ticks are then handled with the parameters then known, up to the first that throws, and the call throws exactly then |
| Engine.PricingEngine.OnKlines | src/libtfbsm/core/pricing_engine.cpp:21-25 | klines feed the estimator, and neither handle a tick nor emit |
| Engine.PricingEngine.ObservationsReachEstimator | src/libtfbsm/core/pricing_engine.cpp:11-33 | every observation of every input is in the estimator exactly once and in order |
| Engine.PricingEngine.TickFate | src/libtfbsm/core/pricing_engine.cpp:11-63 | in every run each tick of each input is handled once, in order and with the parameters fitted at that input, unless an earlier tick of its batch has thrown |
| Engine.PricingEngine.KnownTickEmits | src/libtfbsm/core/pricing_engine.cpp:40-62 | in every run, once a batch has been taken, each option tick handled whose option, spot tick and codes are known has its emission, in its place, reporting it with the parameters of the last batch |
| Engine.PricingEngine.RisingBatchUsesClosedForm | src/libtfbsm/core/pricing_engine.cpp:73-79 | after such a batch every price is that of the closed form, whatever the draws |
| Engine.PricingEngine.EmissionHasTick | src/libtfbsm/core/pricing_engine.cpp:40-62 | in every run each emission comes from such a tick and reports it |
| Engine.PricingEngine.InputsDetermineEmissions | src/libtfbsm/core/pricing_engine.cpp:11-63 | the inputs determine spot prices, parameters and emissions |
| Engine.RunDetermined | src/libtfbsm/core/pricing_engine.cpp:11-63 | the inputs determine which ticks are handled and with which parameters |
| Engine.RunGrows | src/libtfbsm/core/pricing_engine.cpp:11-25 | a further input leaves all that was right of the earlier ones |
| Engine.SpotIsLastMidpoint | src/libtfbsm/core/pricing_engine.cpp:35-38 | a spot price is known if and only if its symbol had a spot tick, and is half the sum of bid and ask of the last one |
| Engine.EmissionsBelongToEvents | src/libtfbsm/core/pricing_engine.cpp:40-62 | the emissions correspond one to one and in order to the option ticks that find parameters, option, spot price and both codes known, and each reports its tick |
| Engine.EmissionReports | src/libtfbsm/core/pricing_engine.cpp:164-186 | field by field: the tick's time, the code of the spot symbol, the code of the option, half the sum of bid and ask of the last spot tick, and the price for that |
| Engine.ThrowsIff | src/libtfbsm/core/pricing_engine.cpp:171-175 | handling throws exactly for an option tick with parameters, option and a spot tick known and a code missing |
| Engine.ObservationsAre | src/libtfbsm/core/parameter_estimator.cpp:14-45 | what each input brings to the estimator: half the sum of bid and ask at the tick's time, the closing price at the kline's |
| Broker.StepKeepsInv | feeder/pkg/util/broker.go:23-62 | every action keeps the relation between map, slots, logs, requests waiting and broadcast log |
| Broker.RunKeepsInv | feeder/pkg/util/broker.go:23-62 | so it holds after every run |
| Broker.ScanFacts | feeder/pkg/core/feedersvc/uc_observations_stream.go:18-34 | by its log, a channel gets increasing positions, from its subscribe on, and at most one message waits |
| Broker.ReceivedIsSelection | feeder/pkg/core/feedersvc/uc_observations_stream.go:18-34 | in every run, what a client took and what waits in its slot is the broadcast log at strictly increasing positions, after its subscribe was handled and before its unsubscribe was, unless that came first |
| Broker.MissedIffFull | feeder/pkg/util/broker.go:37-43 | by a channel's log, a position offered was missed if and only if the slot was full at that offer |
| Broker.DropRule | feeder/pkg/util/broker.go:36-43 | in every run and for every offer in it: the position offered is among those the client gets, by the end of the run and for good, if and only if its slot is empty when the offer is made |
| Broker.FirstOfferAfterTake | feeder/pkg/util/broker.go:38-42 | in every run the first message offered to a client after it has taken one is delivered |
| Broker.DropsInLog | feeder/pkg/util/broker.go:36-43 | by the log of a run, a client misses exactly the positions due to it whose offer the log shows to have found the slot full |
| Broker.FirstOfferAfterDrainIsDelivered | feeder/pkg/util/broker.go:38-42 | the first message offered after a drain is delivered |
| Broker.OffersNeverWait | feeder/pkg/util/broker.go:37-44 | during a broadcast each offer owed can be made at once and settles exactly one subscription, whatever anybody else does |
| Broker.OfferedToAudience | feeder/pkg/util/broker.go:36-43 | in every run, a broadcast has been offered to exactly the subscriptions it began with, less those still owed |
| Broker.SubscribedIffLastHandled | feeder/pkg/util/broker.go:32-35 | by a channel's log, it is subscribed if and only if no unsubscribe follows its subscribe |
| Broker.MapIsLastHandled | feeder/pkg/util/broker.go:32-35 | in every run the map is the channels whose last handled request was a subscribe |
| Broker.GaugeCountsPresent | feeder/pkg/core/feedersvc/uc_observations_stream.go:15-16 | in every run the gauge is the number of streams entered and not left |
| Broker.DispatchedFollowsTaken | feeder/pkg/core/feedersvc/uc_observations_stream.go:27-32 | in every run a client's dispatched count is the number of observations taken, or one less while its caller holds the last or when it stopped there |
| Broker.OvertakenIffOrder | feeder/pkg/util/broker.go:32-35 | an unsubscribe overtook its subscribe if and only if it comes first in the log |
| Broker.QuietMap | feeder/pkg/util/broker.go:32-35 | with no request or call pending, map and gauge agree with the streams present if and only if no unsubscribe overtook its subscribe |
| Broker.TakersAreNoStrays | feeder/pkg/core/feedersvc/uc_observations_stream.go:20-30 | in every run a client that has taken anything has not had its unsubscribe overtake its subscribe |
| Broker.QuietMapOfTakers | feeder/pkg/util/broker.go:32-35 | so map and gauge agree with the streams present when each stream gone has taken something |
| Broker.AbandonedChannelRun | feeder/pkg/util/broker.go:32-35 | a run after which a channel stays in the map although its stream is gone |
| Broker.OfferReaches | feeder/pkg/util/broker.go:37-42 | in whatever order the subscriptions come, after each offer the state is the one in which just those reached so far have been offered to |
| Broker.BrokerLoop.Broadcast | feeder/pkg/util/broker.go:36-44 | the inner loop ends in exactly the state in which the message is in every empty slot of a subscription and all else is as it was, by loop steps only, for any order of the map |
| Broker.BrokerLoop.Select | feeder/pkg/util/broker.go:27-44 | each branch does with what its channel holds what it should, and returns on the stop token and the end of the context, by loop steps only |
| Broker.BrokerLoop.Start | feeder/pkg/util/broker.go:23-46 | for any choices of `select` the loop ends in exactly the state its turns lead to, adds loop steps and nothing else to the history; when a stop token or the end of the context is taken, it has returned and nothing else has changed since |
| Broker.ReturnEndsTurns | feeder/pkg/util/broker.go:28-31 | the turn in which the loop returns is the last and changes nothing else |
| Broker.NothingAfterReturn | feeder/pkg/util/broker.go:28-31 | in every run, after the loop has returned nothing is broadcast and the map stays as it is |
| Broker.TokenWaitsIff | feeder/pkg/util/broker.go:28-50 | in every run the stop token waits if and only if the broker has been closed and the token not been received since |
| Broker.NothingTakenAfterEnd | feeder/pkg/core/feedersvc/uc_observations_stream.go:24-30 | in every run a stream takes nothing after it was cancelled or its caller stopped |
| Broker.EveryRunCanFinish | feeder/pkg/util/broker.go:23-62 | nothing gets stuck while the loop goes on: every run can be continued until all clients are gone and all channels empty |
| Broker.EveryLoopCanBeStopped | feeder/pkg/util/broker.go:28-50 | from every run before its return the loop can be closed, and then receives the token and returns |
| Broker.EveryMessageCanArrive | feeder/pkg/util/broker.go:36-43 | a message published to a settled broker can be taken by any subscribed client that waits |
| Feeder.StepKeepsInv | feeder/pkg/infra/upstream/zmq.go:85-127 | every action of receiver, handler, broker or client keeps the account of frames and observations |
| Feeder.NothingLostUpstream | feeder/pkg/infra/upstream/zmq.go:85-127 | in every run, frames received are those handled, the one in the channel and the one in hand, in order; each handled one is counted as processed, discarded or being published |
| Feeder.EveryFrameCanBeHandled | feeder/pkg/infra/upstream/zmq.go:94-125 | while handler and broker go on, every run can be continued until each frame received has been handled and counted |
| Feeder.NothingAfterShutdown | feeder/pkg/infra/upstream/zmq.go:119-120 | in every run nothing is handled, published or received after the shutdown |
| Feeder.NothingAfterReceiver | feeder/pkg/infra/upstream/zmq.go:85-98 | nor received or handed over after the receiving goroutine has returned |
| Feeder.BrokerRuns | feeder/pkg/core/feedersvc/root.go:13-27 | the broker of every run of the feeder is that of a run of its own, so every result on its runs holds in the feeder |
| Feeder.BrokerContinues | feeder/pkg/core/feedersvc/root.go:13-27 | and a longer run of the feeder gives a longer run of the same broker |
| Feeder.FeederDropRule | feeder/pkg/core/feedersvc/uc_process_observation.go:9-18 | in every run of the whole feeder an offer delivers its observation if and only if it finds the slot empty |
| Feeder.FrameHandler.OnFrame | feeder/pkg/app/root.go:61-91 | a frame is published and counted as processed if it decodes, and counted as discarded if not |
| Feeder.ClientsSeeSelection | feeder/pkg/core/feedersvc/uc_observations_stream.go:18-34 | in every run of the whole feeder a client sees the observations of the frames received at strictly increasing positions |
| Feeder.SinkFramesAllDecode | src/libtfbsm/interactions/zmq_price_sink.cpp:16-40 | every frame of the sink decodes, to an observation that shows its estimation |
| Feeder.EstimationsReachClients | feeder/pkg/app/root.go:61-91 | when all frames are the sink's, none is discarded, and in every run each client sees estimations in order, each as it looks at e decimals |
| Pipeline.EmissionsNonNegative | src/libtfbsm/core/pricing_engine.cpp:58-62 | with no spot midpoint negative, strikes positive and no option expired, no market price and no estimate emitted is negative, and every estimate is a number |
| Pipeline.EmissionsAreSendable | src/libtfbsm/interactions/zmq_price_sink.cpp:17-27 | the sink's casts are then defined for an emission if and only if it is within the limits of the packet |
| Pipeline.EngineReachesClients | src/libtfbsm/interactions/zmq_price_sink.cpp:16-40 | in every run of engine and feeder together, whichever frames are late or dropped, each client sees engine emissions at strictly increasing positions, each as it looks at e decimals |

## Left out

- Rounding and overflow of doubles and the sign of zero: arithmetic is over exact reals, and `Num` adds infinities and NaN where the estimator divides by zero.
- The error accumulated by adding 0.01 to alpha and sigma: the grid is the intended one, 91 values of alpha by 96 of sigma.
- The rounding of a clock count times 1e-3: times are truncated exactly.
- Batches.SortByTime: any sort would do, and nothing uses more than its contract; the algorithm and the in-place swaps of `std::sort` are not modelled.
- Engine.EstimatePrice: a `pow` that overflows is not modelled; the fallback to T covers the powers that are infinite or NaN because of a zero draw or a negative time.
- Pricing.CallConvexInStrike: says nothing about the accuracy of the simulation; draws are inputs, so neither the random engines nor the sampler of the stable distribution is modelled.
- FixedPoint.PriceSurvives: is about prices the sink's cast is defined for, non-negative and below 2^64 after scaling; C++ leaves the cast of any other price, NaN included, undefined.
- FixedPoint.DecimalDivExactIff: models of the decimal library only division with 16 digits, rounded half up.
- Engine.PricingEngine.OnTick: takes the square root of 2 and of a positive time to be non-zero.
- Broker.OffersNeverWait: progress is stated while the loop goes on; after it has returned, publishing, subscribing and unsubscribing can block for ever, and then only the safety statements apply.
- Broker.BrokerLoop.Start: takes its turns without steps of publishers and clients in between; that their steps may come anywhere is what `Broker.Run` is for.
- Fairness of `select` and of the scheduler: nothing is said about when a waiting action is taken.
- Streams take no notice of their instrument argument, in the source as in the model.
- Several upstream handlers: the application registers one, and the model has that one.
- Connecting and closing the upstream socket twice, with the mutex and the once guard.
- The wall clock: the time to expiration is an input of each tick.
- Loading the configuration: options, codes, the risk-free rate, buffer size and instrument names are fixed maps and values.
- ZeroMQ, HTTP and WebSocket transport, JSON, signals, logging and the export of metrics.
- The mock client and mock upstream, the scripts and the build files.
