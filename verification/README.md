# Models of the STM32 motion-control firmware

Dafny models of the parts of the firmware whose correctness does not show in any single function: the two
Ethernet descriptor rings that the CPU shares with a DMA engine, the CAN mailboxes and handshakes, the
clock tree and audio divider arithmetic, packed configuration registers, and a timer on a wrapping
clock. Each model follows its source function branch by branch; the theorems are about
every input, every sequence of calls, or every interleaving.

| file | what it models |
|---|---|
| `Chain.dfy` | the cyclic descriptor chain |
| `RxProtocol.dfy`, `TxProtocol.dfy` | CPU and DMA as a step system: one step per shared access and per byte moved, any ring size, any interleaving |
| `Pbuf.dfy` | pbuf chains, the gather and scatter loops, the pbuf pool with its reference counts |
| `RxDriver.dfy`, `TxDriver.dfy` | the driver functions themselves, updating descriptors, cursor and flags in place while the DMA is quiet |
| `RingRefinement.dfy` | the driver objects as refinements of the step systems: initialisation, one turn, the whole handler, one output call |
| `CanFrame.dfy`, `CanMailboxes.dfy`, `CanHandshake.dfy` | message codec, mailbox allocation over whole runs, polling loops against arbitrary hardware |
| `ClockTree.dfy`, `I2sDivider.dfy` | RCC configuration calls and `RCC_GetClocksFreq`; `I2S_Init` |
| `Words.dfy`, `AdcSequencer.dfy`, `GpioPort.dfy` | packed register entries as arrays: ADC sequencers, GPIO pin modes, interrupt lines |
| `ArpTimer.dfy` | `LwIP_Periodic_Handle` over unbounded time |

`dafny verify dfyconfig.toml` checks everything.

## How the rings are modelled

The step systems let the CPU and the DMA engine interleave arbitrarily. The CPU's program counter has one
value per access to shared memory (guard, OWN test, length read, cursor move, each byte copied, OWN write,
flag test, flag clear, poll demand). The DMA touches only descriptors it owns, in ring order, a byte at a
time, clears OWN when done, and suspends with the unavailable flag up when its next descriptor is not its
own. The ring size is any n >= 1; the firmware uses 4 and 2. Histories (frames completed, consumed,
accepted, sent) are part of the state and nothing reads them.

`RxDriver` and `TxDriver` hold the same functions as imperative code. `RingRefinement` ties the two views: a ring
object stands for a protocol state, and its methods take it to the states that the protocol's CPU reaches by its
own steps while the DMA does not disturb it.

The chain initialisation and the size query that the port calls are modelled as
`STM32_ETH_Driver/src/stm32_eth.c` has them (lines 1188-1221, 1540-1575 and 652-666); the table cites their calls.

Assumptions, all about the hardware or the callers:

- The DMA's "read OWN, raise the flag, suspend" is one step. `RxProtocol.LostWakeupIfNotAtomic` shows a
  run that sleeps for ever if it is not.
- Error frames are not forwarded (`User/Main/stm32f107.c:169`), so a completed descriptor holds one whole
  frame with its CRC. `RxDriver` does without this: there a damaged frame stops the drain loop.
- `pbuf_alloc` may fail at any time in the protocol; in `RxDriver` it fails exactly when the pool is short.
- A transmitted frame fits its buffer; the code does not test this.
- The DMA closes one transmit descriptor before it fetches the next, although `ETH_SecondFrameOperate` is enabled
  (`User/Main/stm32f107.c:171`), which lets it fetch a second frame early.

## Where code and documentation part

- `low_level_output` is documented to return an error when the packet could not be sent
  (`lwip-1.3.1/port/ethernetif.c:191-194`); it returns ERR_OK always. And it copies the packet before asking
  whether the descriptor is free, so a refused call can change the bytes that are sent for a frame accepted
  earlier. `TxProtocol.HarmlessIff` says exactly when a further call does no harm under any interleaving: the head
  descriptor is the CPU's, which a caller can check, or the DMA has read the frame in it already.
  `TxProtocol.RefusedCallCorrupts` is a run that sends wrong bytes, for a ring of any size.
- The comment in `RCC_PLLConfig` (`STM32F10x_StdPeriph_Driver/src/stm32f10x_rcc.c:387`) says that PLLXTPRE is
  cleared; the mask for the connectivity line (:129) keeps that bit, so it survives every run
  (`ClockTree.OthersSurvive`).
- `RCC_GetClocksFreq` counts PLLMul_6_5 as 6 and PLL2Mul_20 as 17; all other factors are used as named
  (`ClockTree.PllFactorAsNamedIff`, `ClockTree.Pll2FactorAsNamedIff`). `I2S_Init` does decode factor 20.
- `ADC_InjectedChannelConfig` asks only for a rank from 1 to 4, but needs a rank within the sequence length:
  the next rank up overwrites the length field itself (`AdcSequencer.BeyondLength`).
- `CAN_TransmitStatus` means to report "failed" for a mailbox number that is none, but its local code for
  "failed" is 0, which the second switch reads as "pending": asked about the number that `CAN_Transmit`
  returns when no mailbox is free, it answers "pending" (`CanMailboxes.TransmitStatus`).
- The CAN waits decide on one more read after the one that ended the wait: a state seen and lost again in
  between counts as a failure (`CanHandshake.GlitchIsNotEnough`).
- The comment of `I2S_Init` gives 511 as the limit of the prescaler; the field is tested against 255, and
  511 is the limit of the divider it stands for (`I2sDivider.KeptIff`).
- `LwIP_Periodic_Handle` fires when due for ever exactly if its calls are at most 2^32 - 5000 ticks apart
  (`ArpTimer.ExactForeverIff`).

## Model

| member | source | states |
|---|---|---|
| Chain.FollowIsAt | lwip-1.3.1/port/ethernetif.c:410-415 | within one turn of the chain, following the link d times lands d places round; n times, on the start |
| Chain.FollowIsModulo | lwip-1.3.1/port/ethernetif.c:410-415 | following the link any number of times is counting modulo the ring size |
| RxProtocol.RunKeepsInv | lwip-1.3.1/port/ethernetif.c:229-272 | every state of every interleaving satisfies the ring invariant |
| RxProtocol.RunKeepsWf | lwip-1.3.1/port/ethernetif.c:229-272 | no run leaves the ring's arrays: every state of every interleaving is well formed |
| RxProtocol.FramesConserved | lwip-1.3.1/port/ethernetif.c:229-272 | frames consumed, followed by the frames a walk of the ring memory finds, are the frames completed, in order, none lost or doubled |
| RxProtocol.RefinesFifo | lwip-1.3.1/port/ethernetif.c:369-419 | each step of either party is a stutter, an append by the DMA, or a removal by the CPU of a FIFO of at most n frames |
| RxProtocol.NoLostWakeup | lwip-1.3.1/port/ethernetif.c:258-268 | a DMA suspended over a descriptor it owns means that the CPU stands between the OWN write and the poll demand, with the flag up or already cleared |
| RxProtocol.WakeupArrives | lwip-1.3.1/port/ethernetif.c:262-268 | from every such state the CPU's own steps lead to the poll demand, after which the DMA is awake at its descriptor |
| RxProtocol.DrainedMeansAwake | User/Main/stm32f10x_it.c:153-159 | when the drain loop stops, the DMA is awake and owns every descriptor |
| RxProtocol.OwnershipArcs | lwip-1.3.1/port/ethernetif.c:375-415 | the CPU's descriptors are one arc, the DMA's the other; both cursors stand at the ends, but for one in-flight descriptor |
| RxProtocol.NoReadWhileDmaOwns | lwip-1.3.1/port/ethernetif.c:248-259 | although the cursor moves first, the descriptor being read is the CPU's until released, and no DMA step changes it |
| RxProtocol.CopyInBounds | lwip-1.3.1/port/ethernetif.c:250-254 | the copy stops at the frame's length, inside the buffer, and holds exactly its bytes so far |
| RxProtocol.NullBranchUnreachable | lwip-1.3.1/port/ethernetif.c:375-391 | behind the guard of the drain loop the branch without a descriptor is never taken |
| RxProtocol.TurnAlone | lwip-1.3.1/port/ethernetif.c:229-272 | an undisturbed turn logs the oldest frame, gives its descriptor back, moves the cursor, clears the flag and wakes the DMA |
| RxProtocol.DrainAlone | lwip-1.3.1/port/ethernetif.c:229-272 | the whole drain loop, undisturbed: every waiting frame logged in order, delivered or dropped as the pool answers, all descriptors given back, and the guard fails |
| RxProtocol.LostWakeupIfNotAtomic | lwip-1.3.1/port/ethernetif.c:258-268 | a run into a permanent stall, should the DMA's test and suspension not be one step |
| TxProtocol.AcceptedIffRoom | lwip-1.3.1/port/ethernetif.c:429-436 | a call is accepted exactly when fewer than n frames are pending; refused, it changes no descriptor field or cursor |
| TxProtocol.SentInOrder | lwip-1.3.1/port/ethernetif.c:203-218 | for calls made while the head is the CPU's, the bytes sent are the accepted frames, in order |
| TxProtocol.RefinesFifo | lwip-1.3.1/port/ethernetif.c:429-464 | each step is a stutter, an append or a removal of a FIFO of at most n frames |
| TxProtocol.NoLostWakeup | lwip-1.3.1/port/ethernetif.c:444-454 | a transmit DMA suspended over a descriptor it owns means that the CPU stands before the poll demand |
| TxProtocol.WakeupArrives | lwip-1.3.1/port/ethernetif.c:448-454 | from every such state the CPU's own steps lead to the poll demand, after which the DMA is awake |
| TxProtocol.AsleepMeansAllSent | lwip-1.3.1/port/ethernetif.c:448-454 | a transmit DMA asleep while no call is under way has sent everything accepted |
| TxProtocol.PathKeepsWf | lwip-1.3.1/port/ethernetif.c:203-218 | no interleaving leaves the ring's arrays |
| TxProtocol.CallAlone | lwip-1.3.1/port/ethernetif.c:203-218 | a whole call that the DMA does not disturb, accepted or refused, and the exact state after it |
| TxProtocol.HarmlessIff | lwip-1.3.1/port/ethernetif.c:207-215 | in every reachable state between two calls: all interleavings of one further call with the DMA send exactly the accepted frames, in order, if and only if the head descriptor is the CPU's or the DMA has read the whole frame in it |
| TxProtocol.HarmlessIfHeadIsCpus | lwip-1.3.1/port/ethernetif.c:207-215 | what a caller can check: with the head descriptor the CPU's, no interleaving of a further call changes the bytes sent |
| TxProtocol.CallHarms | lwip-1.3.1/port/ethernetif.c:207-215 | otherwise a call and an interleaving that send wrong bytes, while the call itself is refused |
| TxProtocol.RefusedCallCorrupts | lwip-1.3.1/port/ethernetif.c:207-215 | for a ring of any size: a run in which a refused call changes the bytes that are then sent |
| Pbuf.FlatOfCut | lwip-1.3.1/port/ethernetif.c:250-254 | pieces cut from a buffer, put together, are the buffer's front |
| Pbuf.GatherThenScatter | lwip-1.3.1/port/ethernetif.c:209-213 | gather, then scatter into any segmentation of the same length: same bytes; same segmentation: same parts |
| Pbuf.Gather | lwip-1.3.1/port/ethernetif.c:209-213 | the loop puts the chain's bytes, concatenated, at the front of the buffer and leaves the rest |
| Pbuf.Scatter | lwip-1.3.1/port/ethernetif.c:250-254 | the loop cuts the buffer's front into the pbufs of any chain that fits |
| Pbuf.Pool.Alloc | lwip-1.3.1/src/core/pbuf.c:152-247 | succeeds exactly if the pool has enough pbufs; then the chain is well linked, unshared, of the asked length, and every pbuf but the last is full; failing, it returns all it took |
| Pbuf.NeededIsCeiling | lwip-1.3.1/src/core/pbuf.c:152-247 | the number of pbufs is the length divided by the pbuf size, rounded up; one for an empty packet |
| Pbuf.Pool.Free | lwip-1.3.1/src/core/pbuf.c:498-563 | frees up to the first pbuf still referenced and not beyond |
| RxDriver.RxRing.constructor | lwip-1.3.1/port/ethernetif.c:160-161 | the chain starts empty: all descriptors the DMA's, cyclically linked |
| RxDriver.RxRing.GetRxPktSize | User/Main/stm32f10x_it.c:156-156 | the frame length exactly if the OWN and ES bits are clear and FS and LS set, else 0 |
| RxDriver.RxRing.RxPktChainMode | lwip-1.3.1/port/ethernetif.c:369-419 | by the OWN, ES, FS and LS bits: no descriptor; the length less 4 bytes of CRC, with buffer and descriptor; or the descriptor alone |
| RxDriver.RxRing.LowLevelInput | lwip-1.3.1/port/ethernetif.c:229-272 | the oldest frame leaves the ring and its status word becomes OWN alone, memory or not; with memory, the chain holds exactly the buffer's bytes up to the CRC |
| RxDriver.RxRing.EthernetifInput | lwip-1.3.1/port/ethernetif.c:284-304 | a refused packet's pbufs are back in the pool, an accepted one's are the stack's |
| RxDriver.RxRing.EthIrqHandler | User/Main/stm32f10x_it.c:153-164 | the loop ends, having handled, each once and in order, exactly the longest run of descriptors from the cursor on with OWN and ES clear and FS and LS set, and wakes the DMA |
| RxDriver.DrainConserves | lwip-1.3.1/port/ethernetif.c:284-304 | pool at the end = pool at the start - what the stack keeps + what it gave back; each entry is about its own frame |
| RxDriver.FirstComeFirstServed | lwip-1.3.1/port/ethernetif.c:246-259 | with one pbuf a frame and a stack that keeps all, exactly the first frames get memory |
| RxDriver.CountWraps | User/Main/netconf.c:133-138 | the packet counter is the number of packets modulo 2^32 |
| RingRefinement.RxStart | lwip-1.3.1/port/ethernetif.c:160-161 | the initialised receive object stands for an initial state of the protocol |
| RingRefinement.Turn | User/Main/netconf.c:133-138 | from any reachable state with a frame ready, the packet handler takes the object along one undisturbed turn of the protocol |
| RingRefinement.Handle | User/Main/stm32f10x_it.c:153-164 | from any reachable state at the guard, the interrupt handler takes the object along the CPU's own steps to a reachable state in which the guard fails; each frame is logged as delivered exactly if the pool had the pbufs |
| TxDriver.TxRing.constructor | lwip-1.3.1/port/ethernetif.c:158-159 | the chain starts with nothing pending, cyclically linked |
| TxDriver.TxRing.TxPktChainMode | lwip-1.3.1/port/ethernetif.c:429-464 | accepted exactly when the head is the CPU's; refused, nothing is written |
| TxDriver.TxRing.LowLevelOutput | lwip-1.3.1/port/ethernetif.c:203-218 | with room, one more pending frame of the chain's bytes; without, the oldest pending frame is overwritten in place; and every descriptor and buffer byte after the call |
| TxDriver.OverwrittenUnharmed | lwip-1.3.1/port/ethernetif.c:207-215 | the overwritten frame is unharmed exactly if the two agree where they overlap |
| TxDriver.BurstFits | lwip-1.3.1/port/ethernetif.c:203-218 | a burst that fits the ring is pending whole and in order |
| TxDriver.BurstOverflows | lwip-1.3.1/port/ethernetif.c:203-218 | of a longer burst the first n frames are pending, in order, and all later ones have been copied over the first |
| TxDriver.OverwrittenByte | lwip-1.3.1/port/ethernetif.c:207-215 | each byte of the overwritten frame is that of the last later frame long enough to reach it, or its own |
| RingRefinement.TxStart | lwip-1.3.1/port/ethernetif.c:158-159 | the initialised transmit object stands for an initial state of the protocol |
| RingRefinement.Output | lwip-1.3.1/port/ethernetif.c:203-218 | from any reachable state between two calls, and whatever the DMA has read by then, low_level_output takes the object to the state after one whole call of the protocol |
| CanFrame.TxMailbox.Fill | STM32F10x_StdPeriph_Driver/src/stm32f10x_can.c:544-575 | the four mailbox registers after a transmit request, whatever they held |
| CanFrame.FilledHolds | STM32F10x_StdPeriph_Driver/src/stm32f10x_can.c:544-575 | a filled mailbox decodes to the message, whatever it held before |
| CanFrame.FilledId | STM32F10x_StdPeriph_Driver/src/stm32f10x_can.c:544-575 | the identifier at bit 21 or bit 3, IDE, RTR and TXRQ in the bits of the register |
| CanFrame.FilledWord | STM32F10x_StdPeriph_Driver/src/stm32f10x_can.c:566-573 | a data register has its first byte lowest |
| CanFrame.FilledDlc | STM32F10x_StdPeriph_Driver/src/stm32f10x_can.c:561-563 | the length code in the low four bits, the rest of the register kept |
| CanFrame.DataRoundTrip | STM32F10x_StdPeriph_Driver/src/stm32f10x_can.c:693-700 | bytes 0 to 3 come from the low data register, 4 to 7 from the high one |
| CanFrame.CountIsCode | STM32F10x_StdPeriph_Driver/src/stm32f10x_can.c:561-563 | a data frame carries as many bytes as its length code says, at most eight |
| CanFrame.Fifo.Receive | STM32F10x_StdPeriph_Driver/src/stm32f10x_can.c:671-712 | the filled structure reads as the message in the registers; the other identifier field is left alone |
| CanFrame.RoundTrip | STM32F10x_StdPeriph_Driver/src/stm32f10x_can.c:676-700 | what is received is what was sent: format, identifier, RTR, DLC and every byte carried, for all leftovers in the unused bits of the registers on both sides; eight data bytes come back as the very message |
| CanFrame.StandardIdSurvivesIff | STM32F10x_StdPeriph_Driver/src/stm32f10x_can.c:548-552 | a standard identifier comes back exactly if it has 11 bits |
| CanMailboxes.TransmitStatus | STM32F10x_StdPeriph_Driver/src/stm32f10x_can.c:589-635 | ok exactly with all three bits of the mailbox set, pending exactly with none, by the words 0x04000003, 0x08000300 and 0x10030000; "pending" for a number that is no mailbox |
| CanMailboxes.Can.Transmit | STM32F10x_StdPeriph_Driver/src/stm32f10x_can.c:515-578 | fills mailbox 0, 1 or 2, the first whose TME bit (26, 27, 28) is set, and touches no other; without one, answers 4 and touches none |
| CanMailboxes.LowestFree | STM32F10x_StdPeriph_Driver/src/stm32f10x_can.c:524-540 | over any run: the lowest mailbox without a pending message; none exactly when all three have one |
| CanMailboxes.PendingUntouched | STM32F10x_StdPeriph_Driver/src/stm32f10x_can.c:542-577 | over any run: a pending message keeps its registers until its own completion |
| CanMailboxes.StatusOfLast | STM32F10x_StdPeriph_Driver/src/stm32f10x_can.c:589-635 | over any run: pending, ok and failed each exactly when that is the fate of the message last accepted |
| CanMailboxes.MessagesConserved | STM32F10x_StdPeriph_Driver/src/stm32f10x_can.c:515-578 | over any run: a mailbox sends what it accepted, in order, unaltered, once, with at most one pending |
| CanHandshake.Cell.Await | STM32F10x_StdPeriph_Driver/src/stm32f10x_can.c:178-188 | a wait ends within 0xFFFF increments for every stream of reads, and the read after it decides |
| CanHandshake.Cell.Init | STM32F10x_StdPeriph_Driver/src/stm32f10x_can.c:154-281 | success exactly as the two deciding reads say; BTR untouched and only the request bits changed if entry fails |
| CanHandshake.Cell.OperatingModeRequest | STM32F10x_StdPeriph_Driver/src/stm32f10x_can.c:774-848 | the right request bits and deciding read for each mode; nothing for an unknown one |
| CanHandshake.Cell.WakeUp | STM32F10x_StdPeriph_Driver/src/stm32f10x_can.c:882-905 | ok exactly if the deciding read shows sleep left |
| CanHandshake.AcknowledgedInTime | STM32F10x_StdPeriph_Driver/src/stm32f10x_can.c:178-189 | hardware that settles after d reads is acknowledged exactly if d <= 0x10000 |
| CanHandshake.GlitchIsNotEnough | STM32F10x_StdPeriph_Driver/src/stm32f10x_can.c:178-188 | a state shown by a single read is acknowledged only if that read is the last one of a wait that ran out |
| CanHandshake.BtrFields | STM32F10x_StdPeriph_Driver/src/stm32f10x_can.c:251-256 | the five bit-timing fields do not overlap |
| ClockTree.Rcc.SysclkConfig | STM32F10x_StdPeriph_Driver/src/stm32f10x_rcc.c:564-576 | changes SW only |
| ClockTree.Rcc.HclkConfig | STM32F10x_StdPeriph_Driver/src/stm32f10x_rcc.c:608-620 | changes HPRE only |
| ClockTree.Rcc.Pclk1Config | STM32F10x_StdPeriph_Driver/src/stm32f10x_rcc.c:634-646 | changes PPRE1 only |
| ClockTree.Rcc.Pclk2Config | STM32F10x_StdPeriph_Driver/src/stm32f10x_rcc.c:660-672 | changes PPRE2 only, three places up |
| ClockTree.Rcc.AdcclkConfig | STM32F10x_StdPeriph_Driver/src/stm32f10x_rcc.c:766-778 | changes ADCPRE only |
| ClockTree.Rcc.PllConfig | STM32F10x_StdPeriph_Driver/src/stm32f10x_rcc.c:378-393 | changes PLLSRC and PLLMUL only; PLLXTPRE keeps its value |
| ClockTree.Rcc.Prediv1Config | STM32F10x_StdPeriph_Driver/src/stm32f10x_rcc.c:426-441 | changes PREDIV1 and its source only |
| ClockTree.Rcc.Prediv2Config | STM32F10x_StdPeriph_Driver/src/stm32f10x_rcc.c:454-468 | changes PREDIV2 only |
| ClockTree.Rcc.Pll2Config | STM32F10x_StdPeriph_Driver/src/stm32f10x_rcc.c:479-493 | changes PLL2MUL only |
| ClockTree.Rcc.Pll3Config | STM32F10x_StdPeriph_Driver/src/stm32f10x_rcc.c:523-537 | changes PLL3MUL only |
| ClockTree.Rcc.GetClocksFreq | STM32F10x_StdPeriph_Driver/src/stm32f10x_rcc.c:908-1031 | the five frequencies as functions of the register fields, with 32-bit wrap-around |
| ClockTree.ChosenInForce | STM32F10x_StdPeriph_Driver/src/stm32f10x_rcc.c:378-778 | after any sequence of calls, from any registers, each field holds the last value given to it, or what it held if it was given none |
| ClockTree.OthersSurvive | STM32F10x_StdPeriph_Driver/src/stm32f10x_rcc.c:129-129 | PLLXTPRE and the bits above the fields survive every sequence of calls |
| ClockTree.PerformAll | STM32F10x_StdPeriph_Driver/src/stm32f10x_rcc.c:378-778 | performing calls on the registers is the run on the fields |
| ClockTree.DivDiv | STM32F10x_StdPeriph_Driver/src/stm32f10x_rcc.c:1006-1030 | rounding down twice is rounding down once, by the product |
| ClockTree.BusClocks | STM32F10x_StdPeriph_Driver/src/stm32f10x_rcc.c:1006-1030 | after any sequence of calls each bus clock is one floor division of SYSCLK by the product of the divisors in force along its path |
| ClockTree.PllBound | STM32F10x_StdPeriph_Driver/src/stm32f10x_rcc.c:982-996 | how far two truncations may take the PLL output from the exact quotient |
| ClockTree.PllBoundFromHse | STM32F10x_StdPeriph_Driver/src/stm32f10x_rcc.c:985-988 | the same for the one truncation when PREDIV1 is fed from HSE |
| ClockTree.PllNeverWraps | STM32F10x_StdPeriph_Driver/src/stm32f10x_rcc.c:963-996 | up to a 25 MHz crystal no product wraps for any factor the calls can choose |
| ClockTree.PllAfterRun | STM32F10x_StdPeriph_Driver/src/stm32f10x_rcc.c:963-996 | no wrap and both bounds, after any sequence of calls that leaves the PLL as system clock |
| ClockTree.SysclkInternal | STM32F10x_StdPeriph_Driver/src/stm32f10x_rcc.c:925-927 | after any sequence of calls with the internal oscillator switched on: 8 MHz |
| ClockTree.SysclkReserved | STM32F10x_StdPeriph_Driver/src/stm32f10x_rcc.c:1001-1003 | the reserved switch status is reported as 8 MHz, too |
| ClockTree.SysclkCrystal | STM32F10x_StdPeriph_Driver/src/stm32f10x_rcc.c:928-930 | after any sequence of calls with the crystal switched on: its frequency |
| ClockTree.SysclkPllFromHsi | STM32F10x_StdPeriph_Driver/src/stm32f10x_rcc.c:974-977 | after any sequence of calls, PLL fed by half the internal oscillator: 4 MHz times the factor named, 6.5 counted as 6 |
| ClockTree.SysclkPllFromHse | STM32F10x_StdPeriph_Driver/src/stm32f10x_rcc.c:985-988 | after any sequence of calls, PLL fed by PREDIV1 and the crystal: divided and multiplied as the arguments name, on 32 bits |
| ClockTree.SysclkPllFromPll2 | STM32F10x_StdPeriph_Driver/src/stm32f10x_rcc.c:989-996 | after any sequence of calls, PLL fed by PLL2: divided by the PREDIV2 named, times the PLL2 factor named (20 counted as 17), divided by the PREDIV1 named, times the PLL factor named, on 32 bits |
| ClockTree.ReadAfter | STM32F10x_StdPeriph_Driver/src/stm32f10x_rcc.c:908-1031 | the call reports these clocks when made after those calls |
| ClockTree.Board | STM32F10x_StdPeriph_Driver/CMSIS/DeviceSupport/system_stm32f10x.c:1021-1056 | the register words of the start-up code and a 25 MHz crystal give 72, 72, 36, 72 and 36 MHz |
| ClockTree.PllFactorAsNamedIff | STM32F10x_StdPeriph_Driver/src/stm32f10x_rcc.c:963-972 | the factor used is the one named exactly if that is not 6.5 |
| ClockTree.Pll2FactorAsNamedIff | STM32F10x_StdPeriph_Driver/src/stm32f10x_rcc.c:994-995 | the PLL2 factor used is the one named exactly if that is not 20, which counts as 17 |
| I2sDivider.Pll3FactorAsNamed | STM32F10x_StdPeriph_Driver/src/stm32f10x_spi.c:281-297 | every PLL3 factor is used as named |
| I2sDivider.Pll3AfterRun | STM32F10x_StdPeriph_Driver/src/stm32f10x_spi.c:281-302 | after any sequence of calls, PLL3 as source: the crystal divided by the PREDIV2 named, times the PLL3 factor named, doubled, on 32 bits |
| I2sDivider.SourceClock | STM32F10x_StdPeriph_Driver/src/stm32f10x_spi.c:264-311 | the source clock from PLL3 or the system clock |
| I2sDivider.ComputePrescaler | STM32F10x_StdPeriph_Driver/src/stm32f10x_spi.c:241-350 | the pair written is the divider in range, else the default |
| I2sDivider.NearestIff | STM32F10x_StdPeriph_Driver/src/stm32f10x_spi.c:319-332 | the divider is the nearest whole number exactly when the 16-bit cast cuts nothing off |
| I2sDivider.KeptIff | STM32F10x_StdPeriph_Driver/src/stm32f10x_spi.c:335-350 | 2 * div + odd is the divider exactly from 4 to 511, else the default stands for 4 |
| I2sDivider.WrittenIsNearestOrFour | STM32F10x_StdPeriph_Driver/src/stm32f10x_spi.c:319-350 | for every source up to 1 GHz and every audio frequency: the nearest whole number to the source divided by 256, 32 or 64 and by the audio frequency, if that is from 4 to 511, else 4 |
| I2sDivider.Pll3BelowGigahertz | STM32F10x_StdPeriph_Driver/src/stm32f10x_spi.c:299-302 | PLL3 stays within that and does not wrap |
| I2sDivider.PrFields | STM32F10x_StdPeriph_Driver/src/stm32f10x_spi.c:353-354 | divider, odd bit and master clock bit can be read back |
| I2sDivider.CfgrFields | STM32F10x_StdPeriph_Driver/src/stm32f10x_spi.c:356-362 | the choices can be read back, I2S is selected, reserved bits stay |
| I2sDivider.Spi.Init | STM32F10x_StdPeriph_Driver/src/stm32f10x_spi.c:219-363 | both registers after the call |
| AdcSequencer.Adc.Init | STM32F10x_StdPeriph_Driver/src/stm32f10x_adc.c:218-268 | the mode, scan, trigger, alignment and continuous fields of CR1 and CR2 and the length take what was given; no other bit of CR1 or CR2 and no rank changes |
| AdcSequencer.Adc.RegularChannelConfig | STM32F10x_StdPeriph_Driver/src/stm32f10x_adc.c:590-677 | one entry of the rank array, one of the sample-time array; all others and the length stay |
| AdcSequencer.Adc.InjectedChannelConfig | STM32F10x_StdPeriph_Driver/src/stm32f10x_adc.c:930-984 | one slot and one sample time, if the rank is within the length; what happens beyond |
| AdcSequencer.Adc.InjectedSequencerLengthConfig | STM32F10x_StdPeriph_Driver/src/stm32f10x_adc.c:993-1010 | changes the length and no slot |
| AdcSequencer.PerformAll | STM32F10x_StdPeriph_Driver/src/stm32f10x_adc.c:590-677 | calls on the registers are the run on the arrays |
| AdcSequencer.RegularAfterRun | STM32F10x_StdPeriph_Driver/src/stm32f10x_adc.c:590-677 | after any sequence of calls: last channel per rank, last sample time per channel, last length, last control setting |
| AdcSequencer.InjectedAfterRun | STM32F10x_StdPeriph_Driver/src/stm32f10x_adc.c:969-983 | after any sequence of calls within the length: slot rank + 2 - JL holds the last channel of each injected rank, length undisturbed |
| AdcSequencer.BeyondLength | STM32F10x_StdPeriph_Driver/src/stm32f10x_adc.c:969-983 | a rank beyond the length gets no slot, and spares the length for every channel exactly if it is not the very next one |
| AdcSequencer.LengthMovesRanks | STM32F10x_StdPeriph_Driver/src/stm32f10x_adc.c:993-1010 | a new length keeps each channel's distance from the end of the sequence |
| AdcSequencer.Placement | STM32F10x_StdPeriph_Driver/src/stm32f10x_adc.c:602-676 | which register holds which ranks, sample times and slots, and where the two lengths are |
| Words.QuarterIsNumber | STM32F10x_StdPeriph_Driver/src/stm32f10x_adc.c:973-973 | a two-bit field is read as its number |
| AdcSequencer.FiveBits | STM32F10x_StdPeriph_Driver/src/stm32f10x_adc.c:635-676 | entry by entry, the five bits of a sequence register |
| AdcSequencer.ThreeBits | STM32F10x_StdPeriph_Driver/src/stm32f10x_adc.c:602-633 | entry by entry, the three bits of a sample-time register |
| GpioPort.Port.Half | STM32F10x_StdPeriph_Driver/src/stm32f10x_gpio.c:191-219 | the loop gives exactly the selected pins of its half the mode nibble and the pull level |
| GpioPort.Port.Init | STM32F10x_StdPeriph_Driver/src/stm32f10x_gpio.c:173-258 | exactly the selected pins take the setting, all others keep theirs; for each of the eight modes the speed bits, the configuration bits and the output bit of a selected pin |
| GpioPort.Placement | STM32F10x_StdPeriph_Driver/src/stm32f10x_gpio.c:191-257 | pins 0 to 7 are in CRL, 8 to 15 in CRH |
| GpioPort.NibbleBits | STM32F10x_StdPeriph_Driver/src/stm32f10x_gpio.c:203-208 | nibble by nibble, the bits of CRL and CRH |
| GpioPort.BitBits | STM32F10x_StdPeriph_Driver/src/stm32f10x_gpio.c:198-201 | the bit of each pin in a mask and in ODR |
| Words.WIsNumber | STM32F10x_StdPeriph_Driver/src/stm32f10x_gpio.c:196-203 | the word for a pin number is that number |
| GpioPort.Union | STM32F10x_StdPeriph_Driver/src/stm32f10x_gpio.c:173-258 | configuring two sets of pins alike in turn is configuring their union |
| GpioPort.DisjointCommute | STM32F10x_StdPeriph_Driver/src/stm32f10x_gpio.c:173-258 | calls for disjoint pins may be swapped, whatever the settings |
| GpioPort.LaterHides | STM32F10x_StdPeriph_Driver/src/stm32f10x_gpio.c:200-213 | a later call hides an earlier one, but for output bits when it sets no pull |
| GpioPort.PinAfterRun | STM32F10x_StdPeriph_Driver/src/stm32f10x_gpio.c:173-258 | after any sequence of calls each pin has what the last call for it gave |
| GpioPort.ExtiLineConfig | STM32F10x_StdPeriph_Driver/src/stm32f10x_gpio.c:609-619 | one line changes its port, the 15 others stay |
| GpioPort.LinePlacement | STM32F10x_StdPeriph_Driver/src/stm32f10x_gpio.c:609-619 | line i is nibble i % 4 of register i / 4 |
| ArpTimer.NetTimer.PeriodicHandle | User/Main/netconf.c:145-153 | fires when the difference modulo 2^32 has reached 5000, and then restarts |
| ArpTimer.FiresModulo | User/Main/netconf.c:145-153 | firing depends on the true elapsed time modulo 2^32 |
| ArpTimer.CallsAreExact | User/Main/netconf.c:145-153 | with calls at most d apart, d + interval <= 2^32, every call of any schedule fires exactly when due |
| ArpTimer.FiringGaps | User/Main/netconf.c:145-153 | consecutive firings are at least the interval and less than interval + d apart, over any number of wraps |
| ArpTimer.ExactForeverIff | User/Main/netconf.c:145-153 | exactness for all schedules holds exactly if d + interval <= 2^32 |

## Left out

- Frames that arrive between the exit of the drain loop and the clearing of the pending bits (`User/Main/stm32f10x_it.c:159-163`): nothing is claimed about how soon they are served.
- Several descriptors per frame, error frames inside the protocol, and checksum bits of the status word: the firmware asks for store-and-forward of whole frames only.
- RxDriver.RxRing.RxPktChainMode: status words are records of the bits the driver reads, so masks are not modelled bit by bit; the same holds for MCR in CanHandshake and the descriptors in TxDriver.
- Pbuf.Pool.Alloc: the free list is a count, and each pbuf taken is a new object, so that a chain is unshared holds by construction; the reuse of pool memory is not modelled.
- RxDriver.RxRing.EthernetifInput: what the stack does with an accepted packet is a parameter (its answer and the pbufs it gives back meanwhile).
- GpioPort.Port.Half: one method stands for both pin loops, which differ in the register and in the offset of the pin only.
- CanHandshake.Cell.Await: one method stands for the six wait loops; `CAN_Init` counts up, the others count down over the same range.
- CanMailboxes.Can.Transmit: the hardware's reaction to a request is in the run model, not in the method; abort requests and the clearing of completion flags by software are not part of the runs.
- ClockTree.Rcc.GetClocksFreq: only the connectivity-line branch; the MCO, USB, RTC and I2S source selections are not modelled.
- Motion profiles, the command queue and limit switches (`User/Main/main.c:28-41`).
- The lwIP core, PHY bring-up and `ETH_Init`; thin calls into lwIP; peripheral drivers that are single-field writes or flag reads; bit-band writes; `GPIO_PinRemapConfig`; `NVIC_Init`: leaving them out loses only easy members or needs hardware detail that the sources do not give.
