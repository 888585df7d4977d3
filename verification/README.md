# Interrupt priorities, clock bring-up and debug mailbox of the STM32F4 support code

The project models the part of the firmware's CMSIS core header, peripheral driver and system file that contains
logic, and proves what that logic promises over all arguments, all runs and all hardware behaviour.

* **Interrupt controller.** `Words`, `Fields`, `Priority`, `Aircr`, `Nvic` and `Runs` model the priority codec, the
  set and clear registers, the keyed AIRCR register and `NVIC_Init`. The class `Nvic.Controller` holds the register
  arrays; each method is proved against `Nvic.Apply`, the meaning of a call on plain sets and tables, and `Runs`
  lifts this to whole runs. `Scheduling`, `Nesting`, `Attained` and `Served` add the hardware's preemption rules and
  prove how deep handlers nest and which interrupts are served.
* **Clocks.** `BringupTrace` is the bus trace of the bring-up with its ordering rules, and `ClockOrder` proves what the
  rules mean for the positions and bits of the accesses. `ClockPlan` holds the constants of the six device variants and
  what the bring-up waits for and leaves behind. The class `ClockSetup.Board` runs `SystemInit` and `SetSysClock`
  register write by register write, with the source's loops. `PllWord`, `ClockMath` and `ClockDecode` are the PLL word,
  the 32-bit arithmetic and the two decoders, which `ClockWords` describes on the bits of the registers.
  `ClockOutcome`, `ClockLimits` and `Boot` prove what the decoders read back and which limits the clocks keep.
* **SysTick** and **Itm** are the system timer and the one-slot receive mailbox.

Verify with `dafny verify dfyconfig.toml`.

## Hardware assumptions

These rules are not in the C code; they are taken from the manuals and are part of the model.

* ARMv7-M Architecture Reference Manual, section B1.5.4: with PRIGROUP g the group priority of a priority byte is its
  bits 7..g+1 and the subpriority its bits g..0. A pending enabled interrupt is taken if its group priority is below
  that of every active handler; of several the lowest group priority, then subpriority, then number goes first.
* Section B3.2.6: a write to AIRCR without the key 0x05FA is ignored; with it PRIGROUP is stored and bit 2 requests a
  reset. AIRCR reads back a different key value, so nothing is assumed about the bits read.
* Section B3.4: writing a word to a set (clear) register sets (clears) the bits that are 1 and leaves the others.
  PRIGROUP and all enables, pendings and priorities are 0 after reset.
* A request from a peripheral makes an interrupt pending exactly as NVIC_SetPendingIRQ does.
* Section B3.3: an enabled counter runs from the processor clock or the reference clock as CLKSOURCE says; it reloads
  on the clock after 0 and raises its interrupt when counting from 1 to 0; a write to VAL clears it without an
  interrupt; a reload value of 0 stops it.
* RM0090 section 7.3: in CR the ready bits, and in CFGR the field SWS, come from the hardware; every poll may see any
  value of them. A read-modify-write writes those bits back without effect, so a register field of `Board` holds the
  other bits.
* The debugger writes the mailbox only after it has seen it empty, and never writes the empty mark.

`__NVIC_PRIO_BITS` is a parameter, 1 to 8, for the CMSIS functions; the results about `NVIC_Init`, which assumes 4
bits, are for 4 to 8. `HSE_VALUE`, `HSI_VALUE` and `HSE_STARTUP_TIMEOUT` are parameters of a board.

## Findings

* `NVIC_Init` has a defined result only under PRIGROUP 3 to 7. PRIGROUP is 0 after reset, so an `NVIC_Init` without an
  earlier `NVIC_PriorityGroupConfig` shifts by 253 or more (`Priority.ShiftCountsInRange`, `Runs.InitNeedsGrouping`).
* `SysTick_Config(1)` reports success and never raises an interrupt (`SysTick.PeriodicExactly`).
* `SystemCoreClockUpdate` and `RCC_GetClocksFreq` disagree for the prescaler codes 4 to 7, for which only the table of
  the latter divides (`ClockDecode.DecodersAgree`).
* The F411 build programs 2 flash wait states for 100 MHz; the driver's own table asks for 3
  (`ClockLimits.WaitStatesSuffice`, `ClockLimits.F411NeedsMore`).
* All variants divide the PLL input to 1 MHz and use PLL_Q = 7, which gives USB its 48 MHz on the F40x and the F401
  only (`ClockLimits.UsbClockIs48`). The header comment lists the 48 MHz requirement as disabled for every variant.
* On the F411 `SystemCoreClockUpdate` reports 0 if the PLL runs from the source the build does not expect
  (`ClockDecode.F411Agrees`, `ClockDecode.BypassAgrees`).
* On the F411 with bypass it computes with 8 MHz whatever `HSE_VALUE` is. After `SystemInit` it agrees with
  `RCC_GetClocksFreq` exactly for an `HSE_VALUE` of 8 MHz, up to the 7 Hz that the division by M drops; with the
  25 MHz of other boards it reports 100 MHz where the latter reports 312.5 MHz (`ClockOutcome.BypassReadsHse`,
  `ClockOutcome.BypassWith25Megahertz`).
* `NVIC_SetPriorityGrouping` writes back bit 2 of AIRCR as it read it; were it read set, the call would request a
  reset (`Aircr.SetGroupingWordReset`).
* `IS_RCC_PLLM_VALUE` admits M = 0, by which both decoders would divide; they are specified for M of at least 1 when
  the PLL is in use. The range macros also do not exclude wrap-around (`ClockDecode.RangesDoNotPreventWrap`).
* The HSE test after the start-up loop reads CR again: the loop may have seen HSE ready and the PLL still not be
  started, and the other way round (`ClockOutcome.RereadDecides`).
* The table in the header comment of `system_stm32f4xx.c` disagrees with the code (PLL_M 25 for 8, F411 latency 3 for
  2). The model follows the code.

## Model

| member | source | states |
|---|---|---|
| `Nesting.DocumentedNesting` | program/FWLIB/STM32F4xx_StdPeriph_Driver/src/misc.c:22-46 | After NVIC_PriorityGroupConfig(NVIC_PriorityGroup_k), in every run of configuring, pending, taking and returning, at most 2^k handlers (1, 2, 4, 8, 16) are active at once |
| `Nesting.NestingBound` | program/FWLIB/STM32F4xx_StdPeriph_Driver/src/misc.c:22-41 | From any consistent state, every run leaves the active handlers with strictly falling preemption levels, hence no more of them than there are levels |
| `Nesting.NoPreemptionInGroup0` | program/FWLIB/STM32F4xx_StdPeriph_Driver/src/misc.c:45-46 | Under NVIC_PriorityGroup_0 an interrupt is taken only while no handler is active |
| `Attained.BoundIsReached` | program/FWLIB/STM32F4xx_StdPeriph_Driver/src/misc.c:22-41 | The nesting bound is exact: from every state with no active handler under a documented group, whatever is pending, there is a run, built from NVIC_ClearPendingIRQ, NVIC_Init, NVIC_SetPendingIRQ and taking, that nests one handler per level |
| `Scheduling.RunKeepsInv` | program/FWLIB/STM32F4xx_StdPeriph_Driver/src/misc.c:136-169 | Every run keeps: strictly falling group priorities on the active stack, only implemented bits in the priority bytes, and for every interrupt configured by NVIC_Init the byte its arguments encode |
| `Scheduling.EventKeepsInv` | program/FWLIB/STM32F4xx_StdPeriph_Driver/src/misc.c:136-169 | Each single event (taking an interrupt, returning, or an NVIC call that keeps the grouping and does not set the priority of an active handler) keeps that invariant and the grouping |
| `Nesting.PrecedesIsDocumented` | program/FWLIB/STM32F4xx_StdPeriph_Driver/src/misc.c:48-51 | Between interrupts configured by NVIC_Init the hardware's choice is exactly the documented order: lowest preemption priority, then lowest subpriority, then lowest number |
| `Nesting.PreemptionIsDocumented` | program/FWLIB/STM32F4xx_StdPeriph_Driver/src/misc.c:22-51 | Of two interrupts configured by NVIC_Init one has the lower group priority, so preempts, exactly when its preemption priority is lower |
| `Nesting.SubOfConfigured` | program/FWLIB/STM32F4xx_StdPeriph_Driver/src/misc.c:152-155 | The subpriority the hardware reads for an interrupt configured by NVIC_Init is the configured one, above the four unimplemented bits |
| `Nesting.PrecedesIsStrictTotal` | program/FWLIB/STM32F4xx_StdPeriph_Driver/src/misc.c:48-51 | The order with the interrupt number as tie-break is a strict total order |
| `Nesting.ExactlyOneIsTaken` | program/FWLIB/STM32F4xx_StdPeriph_Driver/src/misc.c:48-51 | Whenever some enabled pending interrupt beats the running handlers, exactly one interrupt can be taken, and it is an enabled and pending one |
| `Scheduling.WhatIsAllowed` | program/FWLIB/STM32F4xx_StdPeriph_Driver/src/misc.c:19-51 | The events of a run: an enabled pending interrupt that beats every active handler and precedes every other enabled pending one is taken; the innermost handler returns; every accepted, defined call that keeps the grouping and the priorities of active handlers is made; and nothing else |
| `Served.ServedOnlyIfEnabledAndPending` | program/FWLIB/STM32F4xx_StdPeriph_Driver/src/misc.c:145-168 | In every run from the configured reset state an interrupt is taken only if an earlier NVIC_EnableIRQ or enabling NVIC_Init named it with no disabling call since, and an earlier NVIC_SetPendingIRQ named it with no clearing or taking since |
| `Served.LeftEnabled` | program/CORE/core_cm4.h:1467-1483 | An interrupt that a run leaves enabled was enabled by an event after which none disabled it, or was enabled before and never disabled |
| `Served.LowerHandlersStay` | program/FWLIB/STM32F4xx_StdPeriph_Driver/src/misc.c:22-46 | A run that never returns below the first n active handlers leaves those in place |
| `Served.BalancedRunsRestore` | program/FWLIB/STM32F4xx_StdPeriph_Driver/src/misc.c:22-46 | A run that returns from every interrupt it takes leaves the active stack as it was |
| `Nesting.DocumentedLevels` | program/FWLIB/STM32F4xx_StdPeriph_Driver/src/misc.c:22-41 | The five groups give 1, 2, 4, 8 and 16 preemption levels for every controller with at least 4 priority bits |
| `Priority.InitByteIsCmsisByte` | program/FWLIB/STM32F4xx_StdPeriph_Driver/src/misc.c:148-155 | For every AIRCR with PRIGROUP 3..7 and all 8-bit arguments, in or out of range, the byte from NVIC_Init's wrapping 8-bit shifts is the one NVIC_SetPriority(NVIC_EncodePriority(...)) stores |
| `Nvic.InitPriority` | program/FWLIB/STM32F4xx_StdPeriph_Driver/src/misc.c:138-155 | The step-by-step reassignment of tmppriority, tmppre and tmpsub ends with that CMSIS byte |
| `Nvic.Controller.Init` | program/FWLIB/STM32F4xx_StdPeriph_Driver/src/misc.c:136-169 | NVIC_Init does what the CMSIS calls would do: enabled, the CMSIS byte is stored and exactly this channel joins the enabled set; disabled, exactly this channel leaves it; nothing else changes |
| `Priority.ShiftCountsInRange` | program/FWLIB/STM32F4xx_StdPeriph_Driver/src/misc.c:148-150 | NVIC_Init's shift counts lie in 0..4 exactly when PRIGROUP is 3..7; otherwise the left count wraps to 253 or more |
| `Runs.GroupingInvariant` | program/FWLIB/STM32F4xx_StdPeriph_Driver/src/misc.c:118-155 | Once PRIGROUP is in 3..7, and while NVIC_SetPriorityGrouping is only given such groups, every mix of NVIC calls keeps it there, so every NVIC_Init of the run has a defined shift |
| `Runs.DefinedIsShiftCount` | program/FWLIB/STM32F4xx_StdPeriph_Driver/src/misc.c:148-152 | An enabling NVIC_Init call is defined exactly when its left shift count is below the 32 bits of the shifted int |
| `Runs.InitNeedsGrouping` | program/FWLIB/STM32F4xx_StdPeriph_Driver/src/misc.c:130-152 | Straight after reset (PRIGROUP 0) enabling an interrupt with NVIC_Init shifts left by 253, which is not defined |
| `Aircr.SetGroupingWordReset` | program/CORE/core_cm4.h:1440-1445 | The write passes bit 2 on as read, so it requests a reset exactly if that bit was read set |
| `Priority.FieldsTile` | program/CORE/core_cm4.h:1598-1599 | For every priority-bit count 1..8 and every 32-bit group, preemption and subpriority widths add up to the implemented bits |
| `Priority.DecodeEncode` | program/CORE/core_cm4.h:1592-1631 | Decoding an encoded pair returns both 32-bit values reduced to their field widths |
| `Priority.EncodeDecode` | program/CORE/core_cm4.h:1592-1631 | Encoding a decoded value returns it reduced to the implemented bits |
| `Priority.StoredRoundTrip` | program/CORE/core_cm4.h:1550-1605 | An encoded pair survives storage by NVIC_SetPriority and loading by NVIC_GetPriority |
| `Priority.LoadStored` | program/CORE/core_cm4.h:1550-1577 | Any 32-bit value stored and loaded comes back reduced to the implemented bits |
| `Priority.EncodedFits` | program/CORE/core_cm4.h:1601-1604 | Encoded priorities never exceed the implemented bits |
| `Priority.OrderPreserved` | program/CORE/core_cm4.h:1592-1605 | Comparing stored bytes is comparing (preemption, subpriority) lexicographically, under one grouping and for values in their ranges |
| `Priority.InRangeIsUnreduced` | program/CORE/core_cm4.h:1602-1603 | In range are exactly the values that the reduction to the field leaves as they are |
| `Priority.InitOrder` | program/FWLIB/STM32F4xx_StdPeriph_Driver/src/misc.c:48-51 | Bytes stored by NVIC_Init compare as the documented pairs do, for all 8-bit arguments |
| `Priority.LevelOfCmsisByte` | program/CORE/core_cm4.h:1592-1605 | The preemption level the hardware reads in a stored byte is the encoded preemption priority |
| `Priority.GroupPriorityIsLevel` | program/CORE/core_cm4.h:1594-1599 | The hardware's comparison of group priorities (PRIGROUP+1 bits) agrees with comparing the implemented preemption fields, also where PRIGROUP asks for more bits than exist |
| `Runs.Execute` | program/CORE/core_cm4.h:1467-1556 | After any defined run of NVIC calls the word and byte arrays stand for exactly the sets and tables of plain set insertion and removal |
| `Runs.LastCallDecides` | program/CORE/core_cm4.h:1467-1523 | After any run an interrupt is enabled, or pending, exactly as the last call naming it left it |
| `Words.SetPort` | program/CORE/core_cm4.h:1470 | Writing a one-bit mask to a set register inserts exactly that interrupt number into the set the eight words represent |
| `Words.ClearPort` | program/CORE/core_cm4.h:1482 | Writing a one-bit mask to a clear register removes exactly that number |
| `Nvic.Controller.EnableIRQ` | program/CORE/core_cm4.h:1467-1471 | Inserts the interrupt into the enabled set and changes nothing else |
| `Nvic.Controller.DisableIRQ` | program/CORE/core_cm4.h:1480-1483 | Removes it from the enabled set and changes nothing else |
| `Nvic.Controller.SetPendingIRQ` | program/CORE/core_cm4.h:1508-1511 | Inserts it into the pending set and changes nothing else |
| `Nvic.Controller.ClearPendingIRQ` | program/CORE/core_cm4.h:1520-1523 | Removes it from the pending set and changes nothing else |
| `Nvic.Controller.GetPendingIRQ` | program/CORE/core_cm4.h:1496-1499 | Returns 1 exactly for members of the pending set |
| `Nvic.Controller.SetPriority` | program/CORE/core_cm4.h:1550-1556 | Stores the aligned byte in the slot of this number only: SHP[irq + 12] for a core exception, IP[irq] for a device interrupt |
| `Nvic.Controller.GetPriority` | program/CORE/core_cm4.h:1570-1577 | Returns what SHP[irq + 12] or IP[irq] holds, shifted back |
| `Runs.SlotsSeparate` | program/CORE/core_cm4.h:336-376 | For numbers -12 to 239 the split into handler and device slots is in bounds and injective |
| `Nvic.HandlerSlotIs` | program/CORE/core_cm4.h:1553 | The masked index of exception number irq + 16 is that number less 4 |
| `Nvic.AcceptedNumbers` | program/CORE/core_cm4.h:336-376 | Every number from 0 to 239, for priorities also from -12 up, stays inside the register arrays, and no other does |
| `Runs.SlotsOfHandlers` | program/CORE/core_cm4.h:1553 | Of the core exceptions -16 to -1, exactly those from -12 up have a slot |
| `Runs.PriorityUntouched` | program/CORE/core_cm4.h:1550-1577 | A run leaves the priority of every interrupt that no call of the run sets |
| `Runs.SetThenGet` | program/CORE/core_cm4.h:1550-1577 | NVIC_GetPriority after NVIC_SetPriority returns the value reduced to the implemented bits |
| `Aircr.KeylessWriteIsIgnored` | program/CORE/core_cm4.h:1441-1445 | A write to AIRCR without the key 0x05FA changes nothing and requests nothing, which is why the functions write the key |
| `Aircr.SetGroupingWordIsKeyed` | program/CORE/core_cm4.h:1435-1446 | Whatever AIRCR reads back, the write carries the key 0x05FA, keeps every bit outside key and PRIGROUP, and the group then reads as the argument mod 8 |
| `Aircr.ConfigWordIsKeyed` | program/FWLIB/STM32F4xx_StdPeriph_Driver/src/misc.c:118-125 | The word for each of the five groups carries the key, requests no reset, and sets PRIGROUP to 3..7 |
| `Aircr.DocumentedGroups` | program/FWLIB/STM32F4xx_StdPeriph_Driver/inc/misc.h:112-127 | IS_NVIC_PRIORITY_GROUP accepts exactly the words with no bits but 10..8 and PRIGROUP at least 3 |
| `Aircr.ConfigWordAgrees` | program/FWLIB/STM32F4xx_StdPeriph_Driver/src/misc.c:118-125 | On the five groups NVIC_PriorityGroupConfig and NVIC_SetPriorityGrouping leave AIRCR the same |
| `Aircr.ResetWordKeepsGroup` | program/CORE/core_cm4.h:1638-1647 | The write of NVIC_SystemReset is keyed, requests the reset and leaves the stored AIRCR unchanged |
| `Nvic.Controller.SetPriorityGrouping` | program/CORE/core_cm4.h:1435-1446 | The read-modify-write sets PRIGROUP to the argument mod 8, changes no other register, and requests a reset exactly if bit 2 of AIRCR was read set |
| `Nvic.Controller.GetPriorityGrouping` | program/CORE/core_cm4.h:1455-1458 | Returns the PRIGROUP of the abstract state |
| `Nvic.Controller.PriorityGroupConfig` | program/FWLIB/STM32F4xx_StdPeriph_Driver/src/misc.c:118-125 | Sets PRIGROUP, changes no other state and requests no reset |
| `Nvic.Controller.SystemReset` | program/CORE/core_cm4.h:1638-1647 | Requests the reset and leaves every register as it was |
| `ClockSetup.Board.SystemInit` | program/USER/system_stm32f4xx.c:417-456 | From any register contents, timeout and sequence of status readings: every access of the call obeys the ordering rules (also when a wait never ends), the PLL is switched on exactly when the PLL branch is entered, it returns exactly when the readings let it, and then all eight registers are the stated function of variant, HSE outcome and old contents |
| `ClockSetup.Board.SetSysClock` | program/USER/system_stm32f4xx.c:564-769 | All device variants: HSE start, bounded wait, re-read, and either the PLL start or the return without it |
| `ClockSetup.Board.WaitForHse` | program/USER/system_stm32f4xx.c:575-580 | The do-while loop with its wrapping 32-bit counter compared for equality ends like a loop counting the remaining iterations down |
| `ClockSetup.Board.LockPll` | program/USER/system_stm32f4xx.c:593-626 | Writes regulator scale, prescalers, PLL word and PLLON in an order the rules permit (the PLL word with the PLL off, PLLON only with scale and prescalers in force), and the wait ends with the first reading showing PLLRDY |
| `ClockSetup.Board.SwitchToPll` | program/USER/system_stm32f4xx.c:628-659 | Over-drive hand-shake where there is one, wait states, then the switch, ending with the first reading that shows the PLL in use |
| `ClockOrder.SelectedOnlyWhenLocked` | program/USER/system_stm32f4xx.c:620-654 | Wherever an obeying trace selects the PLL (SW = 2), an earlier read of CR had bit 25 (PLLRDY) set, bit 24 (PLLON) has stayed set since, and PLLCFGR was not written since |
| `ClockOrder.SelectedOnlyWithWaitStates` | program/USER/system_stm32f4xx.c:637-654 | ... and an earlier write gave the flash the wait states of the variant, still in force |
| `ClockOrder.SelectedOnlyWhenSwitched` | program/USER/system_stm32f4xx.c:628-637 | ... and on F42x/43x ODEN was written, ODRDY then read, ODSWEN then written, ODSWRDY then read, neither request withdrawn since |
| `ClockOrder.ReconfiguredOnlyWhenOff` | program/USER/system_stm32f4xx.c:425-434 | PLLCFGR is never written while the word software last gave CR (or found there) has PLLON set |
| `ClockOrder.StartedOnlyWhenPrepared` | program/USER/system_stm32f4xx.c:593-621 | A write that sets PLLON after one that did not comes only once the words last given to PWR_CR and CFGR hold scale 1 and the bus prescalers of the variant |
| `ClockOrder.StoppedOnlyWhenUnused` | program/USER/system_stm32f4xx.c:427-431 | A write that clears PLLON comes only once the word last given to CFGR does not select the PLL |
| `ClockOrder.HsiSelectedOnlyWhenOn` | program/USER/system_stm32f4xx.c:424-428 | HSI is selected only while the word last given to CR has HSION set |
| `ClockOrder.PowerWrittenOnlyWhenClocked` | program/USER/system_stm32f4xx.c:593-595 | PWR_CR is written only with PWREN set, and keeps the regulator scale while PLLON is set |
| `BringupTrace.LastWriteExists` | program/USER/system_stm32f4xx.c:417-456 | Every trace has a last write to each port or none, so the ordering theorems apply to every position |
| `BringupTrace.StartedMeans` | program/USER/system_stm32f4xx.c:620-621 | The observer's started flag says exactly that some write of the trace set PLLON where the word before it had none |
| `ClockOutcome.HseLoopEnds` | program/USER/system_stm32f4xx.c:575-580 | The start-up loop takes at least one and at most the timeout number of readings, ends early only with a ready one, and is unfinished only with fewer readings than that |
| `ClockOutcome.RereadDecides` | program/USER/system_stm32f4xx.c:575-591 | For every sequence of readings, finished or not: the loop ends after n readings, at most the timeout, all but the last with bit 17 (HSERDY) clear; the PLL branch is entered exactly when reading n exists and has bit 17 set, whatever the loop saw, and the rest of the run is decided by it |
| `ClockOutcome.PllReturns` | program/USER/system_stm32f4xx.c:620-659 | A finished PLL start saw a reading with bit 25, then on the F42x/43x one with bit 16 and one with bit 17, then one with SWS = 2, at which it ended |
| `ClockOutcome.PllWaits` | program/USER/system_stm32f4xx.c:620-659 | An unfinished PLL start waits for PLLRDY, or for the next flag in that order, which no reading since the flag before it shows |
| `ClockOutcome.FlagBits` | program/USER/system_stm32f4xx.c:578-657 | The five flags are CR bits 17 and 25, PWR_CSR bits 16 and 17, and SWS = 2 |
| `ClockOutcome.CrStatusBits` | program/USER/system_stm32f4xx.c:578-624 | A read of CR takes the ready and calibration bits from the hardware |
| `ClockOutcome.WaitEndsAtFirst` | program/USER/system_stm32f4xx.c:624-657 | Each unbounded wait ends with the first reading that shows its flag, and never ends exactly if none does |
| `ClockOutcome.EntryDoesNotMatter` | program/USER/system_stm32f4xx.c:423-440 | For any two initial register contents, PLLCFGR, CFGR, CIR, VTOR and the control bits of CR end up equal, given variant and HSE outcome, and so does the flash register when the PLL was started |
| `ClockOutcome.ControlBits` | program/USER/system_stm32f4xx.c:425-437 | HSION, HSEON, HSEBYP, CSSON and PLLON end at the value fixed by variant and outcome; every other bit of CR is as it was |
| `ClockOutcome.RegistersLeft` | program/USER/system_stm32f4xx.c:428-454 | The words left: CIR 0, VTOR 0x08000000, after a failed HSE start CFGR 0 and PLLCFGR 0x24003010 with ACR, APB1ENR and PWR_CR untouched, and with the PLL started the CFGR, ACR and PLLCFGR words of each variant |
| `ClockOutcome.PowerLeft` | program/USER/system_stm32f4xx.c:593-634 | With the PLL started PWREN and regulator scale 1 are set, on the F42x/43x both over-drive requests, and every other bit is as it was |
| `PllWord.FieldsDoNotOverlap` | program/USER/system_stm32f4xx.c:617-618 | For all M, N, P, Q and source in the ranges of the macros the packed fields occupy different bits |
| `PllWord.RoundTrip` | program/USER/system_stm32f4xx.c:617-618 | For every M, N, P, Q and source that the range macros admit, the decoder recovers all five from the packed word |
| `PllWord.RecoversM` | program/FWLIB/STM32F4xx_StdPeriph_Driver/inc/stm32f4xx_rcc.h:88-95 | The decoder's mask recovers M from the packed word, over the whole ranges |
| `PllWord.RecoversN` | program/FWLIB/STM32F4xx_StdPeriph_Driver/inc/stm32f4xx_rcc.h:88-95 | ... and N |
| `PllWord.RecoversP` | program/FWLIB/STM32F4xx_StdPeriph_Driver/inc/stm32f4xx_rcc.h:88-95 | ... and P |
| `PllWord.RecoversQ` | program/FWLIB/STM32F4xx_StdPeriph_Driver/inc/stm32f4xx_rcc.h:88-95 | ... and bits 27..24 hold Q |
| `PllWord.RecoversSrc` | program/FWLIB/STM32F4xx_StdPeriph_Driver/inc/stm32f4xx_rcc.h:88-95 | ... and the source |
| `Boot.InitThenUpdate` | program/USER/system_stm32f4xx.c:417-554 | SystemInit followed by SystemCoreClockUpdate: once the hardware shows the selected source, SystemCoreClock is the configured PLL frequency, or HSI when HSE failed; from any registers, readings, oscillators and variant |
| `ClockOutcome.DecodesPll` | program/USER/system_stm32f4xx.c:494-554 | With the PLL in use the decoder computes ((input/M)*N)/P from what SystemInit wrote, in every variant including the HSI-sourced F411, for every oscillator frequency |
| `ClockOutcome.DecodesHsi` | program/USER/system_stm32f4xx.c:494-554 | After a failed HSE start the decoder computes the HSI frequency |
| `ClockOutcome.InitialClockIsConfigured` | program/USER/system_stm32f4xx.c:370-384 | With HSE 8 MHz and HSI 16 MHz the decoded clock is the initial value of SystemCoreClock: 168, 180, 84 and 100 MHz |
| `ClockLimits.LimitsKept` | program/FWLIB/STM32F4xx_StdPeriph_Driver/src/stm32f4xx_rcc.c:790-864 | Each of the exact HCLK, PCLK2 and PCLK1 that the written registers make of an oscillator keeps its documented maximum exactly when the oscillator gives at most M MHz (8, or 16 for the F411 on HSI) |
| `ClockLimits.UsbClockIs48` | program/USER/system_stm32f4xx.c:325-326 | The exact PLL_VCO / PLL_Q is the 48 MHz that USB requires exactly for an oscillator of M MHz on the F40x and F401, of 0.84 M MHz on the F411, and for none on the F42x/43x |
| `ClockLimits.WaitStatesSuffice` | program/FWLIB/STM32F4xx_StdPeriph_Driver/src/stm32f4xx_rcc.c:792-880 | The programmed flash wait states cover the exact HCLK (2.7 V to 3.6 V) exactly when the oscillator gives at most M MHz, or 0.9 M MHz on the F411 |
| `ClockLimits.F411NeedsMore` | program/USER/system_stm32f4xx.c:759-760 | With the 16 MHz HSI the F411 runs at exactly 100 MHz with 2 wait states, for which the driver documents at most 90 MHz; 3 would do |
| `ClockSetup.Board.SystemCoreClockUpdate` | program/USER/system_stm32f4xx.c:494-554 | The switch over SWS, the branches on the PLL source of each variant, the wrapping product and the AHB shift compute the specified clock |
| `ClockWords.UpdatedClockOfWord` | program/USER/system_stm32f4xx.c:502-553 | On the bits of CFGR: for each documented HPRE code 0x80 to 0xF0 SystemCoreClockUpdate reports the clock in use divided by 2 to 512, and with bit 7 clear that clock itself |
| `ClockWords.SourceBits` | program/USER/system_stm32f4xx.c:504-548 | The clock in use is HSI for SWS 0 and 3, HSE for 1, and the PLL frequency for 2 |
| `ClockWords.UpdateInputOfWord` | program/USER/system_stm32f4xx.c:513-541 | The PLL input by bit 22 of PLLCFGR: HSE or HSI; on the F411 variants 0 for the source not built for, and the fixed 8 MHz with bypass |
| `ClockWords.PllFieldsOfWord` | program/USER/system_stm32f4xx.c:513-542 | M, N, P, Q and the source are bits 5..0, 14..6, 17..16, 27..24 and 22 of every word |
| `ClockDecode.RccClocksDivide` | program/FWLIB/STM32F4xx_StdPeriph_Driver/src/stm32f4xx_rcc.c:1138-1159 | For every pair of register words HCLK is SYSCLK divided by the number the HPRE code is named after (for the undocumented codes 4 to 7 by that of the APB code), and PCLK1 and PCLK2 are HCLK divided by the numbers their codes are named after |
| `ClockWords.RccHclkOfWord` | program/FWLIB/STM32F4xx_StdPeriph_Driver/src/stm32f4xx_rcc.c:1107-1145 | On the bits of CFGR: SYSCLK by SWS, and HCLK as SYSCLK divided as each HPRE code says, the undocumented codes 4 to 7 dividing by 2 to 16 |
| `ClockWords.RccPclkOfWord` | program/FWLIB/STM32F4xx_StdPeriph_Driver/src/stm32f4xx_rcc.c:1147-1159 | On the bits of CFGR: PCLK1 and PCLK2 are HCLK divided by 1, 2, 4, 8 or 16 as each code of PPRE1 and PPRE2 says |
| `Boot.InitThenGetClocksFreq` | program/FWLIB/STM32F4xx_StdPeriph_Driver/src/stm32f4xx_rcc.c:1097-1160 | SystemInit followed by RCC_GetClocksFreq: once the PLL is in use, the four frequencies are the configured multiple of the divided PLL input and its documented bus fractions, from any registers and readings |
| `ClockDecode.PllClock` | program/USER/system_stm32f4xx.c:513-543 | The conditionally compiled PLL branch, in which the F411 variants leave the product 0 for the source they do not expect |
| `ClockDecode.DecodersAgree` | program/FWLIB/STM32F4xx_StdPeriph_Driver/src/stm32f4xx_rcc.c:1097-1156 | In every variant, if both take the same PLL input (or the PLL is not in use), SystemCoreClockUpdate and RCC_GetClocksFreq give the same HCLK exactly when the HPRE code is not one of 4..7 (or SYSCLK is 0) |
| `ClockDecode.PrescalersAgree` | program/USER/system_stm32f4xx.c:386 | The two prescaler tables divide alike exactly outside the codes 4..7 |
| `ClockDecode.AhbTableDivides` | program/FWLIB/STM32F4xx_StdPeriph_Driver/inc/stm32f4xx_rcc.h:138-146 | Shifting by the AHB table entry of a prescaler code divides by the number the code is named after, for every clock |
| `ClockDecode.ApbTableDivides` | program/FWLIB/STM32F4xx_StdPeriph_Driver/inc/stm32f4xx_rcc.h:159-163 | The same for the APB codes |
| `ClockDecode.InputsAgree` | program/USER/system_stm32f4xx.c:516-526 | Outside the F411 both always take the same PLL input |
| `ClockDecode.F411Agrees` | program/USER/system_stm32f4xx.c:535-539 | On the F411 without bypass both agree exactly when the HPRE code is documented (or SYSCLK is 0), except that with the PLL running from HSE they agree only if HCLK is 0 |
| `ClockDecode.BypassAgrees` | program/USER/system_stm32f4xx.c:529-533 | On the F411 with bypass: with the PLL running from HSI both agree exactly if HCLK is 0; without the PLL, or if HSE_VALUE and 8 MHz are the same after the division by M, exactly for the documented codes (or SYSCLK 0) |
| `ClockDecode.BypassAgreesExactly` | program/USER/system_stm32f4xx.c:529-533 | With the PLL running from HSE, a documented code, N at least P times the HPRE divider and no wrap-around, that equality after the division by M is also necessary |
| `ClockOutcome.BypassWith25Megahertz` | program/USER/system_stm32f4xx.c:529-533 | With a 25 MHz HSE it reports 100 MHz where RCC_GetClocksFreq reports 312.5 MHz |
| `ClockOutcome.BypassReadsHse` | program/USER/system_stm32f4xx.c:529-533 | After SystemInit on the F411 with bypass both agree exactly for an HSE_VALUE of 8000000 to 8000007 Hz |
| `ClockDecode.WrongSourceReadsZero` | program/USER/system_stm32f4xx.c:529-539 | An F411 build that finds the PLL running from the other source reports a clock of 0 |
| `ClockMath.ComputedIsQuotient` | program/USER/system_stm32f4xx.c:513-553 | Without wrap-around the computed clock is floor(floor(source/M)*N / (P*2^h)) |
| `ClockMath.ComputedBounds` | program/USER/system_stm32f4xx.c:513-553 | It is never above source*N/(M*P*2^h) and below it by less than N/(P*2^h) + 1 |
| `ClockMath.ComputedExact` | program/USER/system_stm32f4xx.c:513-553 | It is exact when M divides the source and P*2^h divides the product |
| `ClockMath.WrapAlwaysShows` | program/USER/system_stm32f4xx.c:513-553 | The 32-bit computation equals the unbounded one exactly when the product fits in 32 bits |
| `ClockMath.InputBoundPreventsWrap` | program/FWLIB/STM32F4xx_StdPeriph_Driver/inc/stm32f4xx_rcc.h:92-95 | With N at most 432 and a divided input of at most 9942053 Hz the product never wraps |
| `ClockDecode.RangesDoNotPreventWrap` | program/FWLIB/STM32F4xx_StdPeriph_Driver/inc/stm32f4xx_rcc.h:88-95 | The range macros admit M = 1, N = 432, P = 2 with every Q, a word from which the 16 MHz oscillator is decoded as 1308516352 Hz instead of 3456 MHz |
| `SysTick.Timer.Config` | program/CORE/core_cm4.h:1677-1688 | Accepts exactly 1 to 2^24 ticks, 0 being rejected through wrap-around; an accepted call leaves LOAD = ticks - 1, VAL = 0, CTRL = 7 and the lowest priority in SHP[11]; a rejected one changes no register |
| `SysTick.Periodic` | program/CORE/core_cm4.h:1677-1688 | For every count of at least 2, and however processor and reference clocks interleave, n processor clocks after the configuration exactly floor(n/ticks) interrupts have been raised |
| `SysTick.ControlMeans` | program/CORE/core_cm4.h:632-645 | What the three control bits do: without ENABLE the counter stands, without TICKINT it raises nothing, and CLKSOURCE selects the only clock it follows |
| `SysTick.PeriodicExactly` | program/CORE/core_cm4.h:1679 | Over the accepted counts this holds exactly for 2 and more: a count of 1 is accepted but never raises an interrupt |
| `SysTick.OneTickNeverRaises` | program/CORE/core_cm4.h:1679 | With one tick the counter never leaves 0 |
| `SysTick.LowestPriority` | program/CORE/core_cm4.h:1682 | No priority value stores a byte above the one SysTick_Config stores |
| `Itm.Mailbox` | program/CORE/core_cm4.h:1736-1746 | In every interleaving of the receiver's test, read and clear with the debugger's look and write, the delivered characters are a prefix of the sent ones, at most one behind, and equal exactly when the slot is empty |
| `Itm.EverythingGetsThrough` | program/CORE/core_cm4.h:1736-1746 | Every sequence of characters other than the empty mark is sent and delivered by some run |
| `Itm.RunKeepsInv` | program/CORE/core_cm4.h:1703-1704 | The slot always holds exactly what was sent and not yet delivered, and what each side has observed of it is still true |
| `Itm.FullStaysFull` | program/CORE/core_cm4.h:1755-1762 | A character that ITM_CheckChar reported stays in the slot whatever the debugger does |
| `Itm.CallIsRun` | program/CORE/core_cm4.h:1736-1746 | A call of ITM_ReceiveChar on a full slot, with any debugger steps inside it, is a run of the system that delivers that character |
| `Itm.Slot.ReceiveChar` | program/CORE/core_cm4.h:1736-1746 | Returns the character present at the test, or -1 if the slot held 0x5AA55AA5, and leaves that mark in the slot, whatever the debugger does between the three accesses |
| `Itm.Slot.CheckChar` | program/CORE/core_cm4.h:1755-1762 | Returns 1 exactly when something sent is not yet delivered |
| `Itm.CheckThenReceive` | program/CORE/core_cm4.h:1736-1762 | After ITM_CheckChar returned 1, ITM_ReceiveChar returns that character, with the debugger active throughout |
| `Itm.EmptyIsTold` | program/CORE/core_cm4.h:1737 | The return value tells an empty slot from a character, except for the character -1 |

## Left out

- Liveness of the unbounded waits for PLLRDY, ODRDY, ODSWRDY and SWS: they depend on the hardware; safety is proved for unfinished runs and results for returned ones.
- Changing the grouping, or the priority of an interrupt that is being served, in the middle of a scheduling run: the hardware's own rules for this are not part of the model.
- Scheduling of core exceptions, BASEPRI, PRIMASK and late arrival: only device interrupts are scheduled.
- NVIC_GetActive, the vector table and low-power functions of misc.c, SysTick_CLKSourceConfig: one register access each.
- FPU enabling in SystemInit, and VECT_TAB_SRAM: compile-time options with one write each.
- SystemInit_ExtMemCtl: compiled out by default, pin constants and busy polls.
- Hardware that clears HSEON or refuses to clear PLLON by itself: CR keeps what software wrote, apart from its status bits.
- ClockDecode.BypassAgreesExactly: leaves out wrapped products, the undocumented prescaler codes and prescalers so large that different PLL inputs can give the same clock; there only the sufficient condition of ClockDecode.BypassAgrees is stated.
- ITM_SendChar: one busy wait on a port register.
- The peripheral drivers, lwIP, the IP configuration commands and the SIP code: outside this model.
