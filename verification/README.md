# A verified model of the virtual PLC runtime

The runtime keeps one memory that four industrial protocols (Modbus TCP, MELSEC MC 3E,
LS XGT, Siemens S7) look at side by side. A *mapping engine* keeps pairs of cells of
different protocols equal, a *scan* runs it before and after the control logic, and a
*scheduler* repeats scans at a fixed period. Three logics come with it: an assembly
line, a trim line and a water tank.

Code that works step by step is imperative here as well: `PlcMemory`, `PlcLoader`,
`PlcScheduler`, the four servers, the XGT reader and the three logics are classes whose
methods are proved to compute a function of the old state. What the system promises is
then proved about those functions, over all states and all runs.

## The results

**Mapping engine** (`Mapping`, `MappingGraph`, `Heights`, `Convergence`, `Forests`,
`Interleaving`, `Oscillation`, `Flipping`, `OddRings`, `Fronts`, `SlowRules`, `LoneRings`,
`ParallelRules`, `Settling`, `Takeover`, `SingleRule`). A pass walks the rules in list order
and copies in both directions, so one rule can undo what an earlier one has just seen. The
cells are not locked during a pass, so clients also write between two of its rules.
- A forest of height H settles after 2H passes in any rule order, from any memory and
  any remembered values, and after H + 1 passes when sources come first; later passes
  change nothing. The key is a quiet zone that grows by one level a pass: after n
  passes no rule whose destination is lower than n writes its source.
- A list whose destinations are all different, as the mapping guide asks for, always settles
  if and only if it closes no ring of three or more cells. "Always" is: loaded over any
  memory, whatever clients then write before and between the rules of however many passes,
  and left alone afterwards. Where it closes a ring, clients can start within the first pass
  a wave that runs round the ring for ever, for any directions and any list order.
- Shared destinations allowed, but no two rules on the same two cells: a list that closes no
  ring always settles, and of one that closes a ring some selection does not. The list itself
  does not always settle if it closes a ring of odd length, whatever its other rules; nor if
  some rule lies on one ring only; nor, more generally, if some rule is *slow*: a change that
  has come through it gets round to its other end only after it has fired again. So where
  rings have no rule in common, the list always settles if and only if it closes none.
- With two rules on the same two cells neither half holds: a ring is kept still by one of
  its rules listed again, and a star of three mapped twice, say in both directions, which
  closes no ring, can alternate for ever.
- One outside write into a settled group takes the group over within n - 1 passes, on
  any connected graph, rings and shared destinations included.
- For ends of different width or out of range the exact condition under which a written
  value survives the next pass is given, for writes to either end, and for a word mapped to
  a bit what becomes of every value.

**Scan** (`Scan`, `Loader`, `ScanCoherence`, `NonInterference`, `StarWrites`). With star
mappings around Modbus hubs, every scan of every run, from every state and whatever
clients write between scans, ends coherent, and the second pass never writes a hub. In AUTO,
runs of any length whose clients differ only in writes to bound coils (or what is mapped to
them) go through equal states; in MANUAL the logic sees what the clients wrote. For every
kind of symbol it is stated where the logic gets it from and where it goes.

**End to end** (`Delivery`, `EndToEnd`). In pass-through mode a block of words that a client
session writes through Modbus function code 6 or 16, MC batch write or XGT continuous write,
or an S7 client puts into its data block, is, one scan later, what client sessions read
through Modbus function code 3, MC batch read and XGT continuous read, and what the S7 data
block shows, each in its own byte order, for rules as a mapping file spells them. Which
requests reach the processors through the connection loops is stated exactly: for Modbus and
MC by the size of their data, for XGT by the length field, which may be smaller than the
body; the recovery walk then fetches the whole body, however long it is.

**Logics** (`Assembly*`, `Trim*`, `Tank`). Safety over every run with adversarial
inputs, exact cycle times, conservation of chassis, the exact speed below which the
station holds, and the proof that the trim line can never produce a vehicle. Undisturbed
runs of the assembly line and of the trim line are known scan by scan; what each state of
the sequences waits for and what coils, lamps and displays show is stated for any state of
the machine.

**Servers** (`Modbus*`, `Mc*`, `Xgt*`, `S7`, `Connection`, `Framing`). The processors are
described twice: as the code computes, and byte by byte from the outside (`ModbusWire`,
`McWire`, `XgtWire`), with cells by their written addresses (`Address`). Round trips, frame
conditions, length fields and their exact limits; each client session depends on the byte
stream only, never on how the network cuts it; the XGT reader, a second parser of the same
frames, agrees with the main one on every request whose bytes have all come.

## Conventions

Cells are (area, index) pairs and the memory a map from the cells in range to 16-bit
words; bit areas keep 0 or 1. Lengths of the logics are whole numbers on the grid of the
code's steps: conveyor 0.02 mm (assembly) and 1 mm (trim), lift and clamp 0.01, rotation
0.001, tank level 0.02 mm. `Le`, `Join`, `Low`, `High` and `ToWord` make byte orders and
16-bit truncation explicit.

## Where code and documentation differ

The model follows the code.
- `docs/mapping_engine_guide.md:166` warns that two rules with one destination may roll
  values back or oscillate. That is so where two rules join the same two cells: a star of
  three cells mapped in both directions closes no ring and can alternate for ever
  (`ParallelRules.BothWaysStarOscillates`). With no two rules on the same two cells, rules that
  share a destination always settle if they close no ring (`Settling.AcyclicSettles`); and a
  ring need not share a destination to oscillate (`Settling.UniqueDestinationsSettleExactly`).
- `docs/mapping_engine_guide.md:167` allows a word mapped to a bit and says the bit becomes
  0 or 1. The word itself becomes 0 or 1 one pass later (`SingleRule.WordToBitExactly`).
- The trim line steps 3 mm into stop windows of 10 mm, so its vehicle never leaves the
  first station (`TrimRuns.LineNeverProduces`, `TrimSequence.CourseIsExact`).
- The loader takes discrete inputs 0 and 7 to every logic (`Scan.InputsReachLogic`). The trim
  line has its emergency stop at input 5 (`src/logic/trim_logic.cpp:14`), so one that is set
  in the memory does not reach it, and its input 7 is the glue alarm.
- The trim line's comments let the fail lamp shine while the result is shown
  (`src/logic/trim_logic.cpp:349-366`); the scan after the decision turns it off
  (`TrimSequence.ShowsResult`).
- The name of a bit without a place, such as `%MX5`, is the first bit of a byte: bit 40
  (`XgtWire.NamesResolve`).
- The Modbus connection loop hangs up on PDUs of 250 bytes and more, where section 4.1 of
  the Modbus Application Protocol Specification V1.1b3 allows 253. So function code 15 works
  for up to 1944 coils, though the processor would take 2000 and section 6.11 says 1968, and
  function code 16 for up to 121 registers of the 123 of section 6.12
  (`Delivery.CoilsDeliveredExactly`, `Delivery.RegistersDeliveredExactly`).
- XGT write data with a length field of 0x20 is taken for 2 bytes, so a continuous write
  of 32 bytes stores one word (`XgtProperties.ThirtyTwoBytesWriteOneWord`).
- The assembly sequence pushes the chassis to 525 mm and starts the next one from 0, so
  the completed-count register does not move in AUTO (`AssemblyProgress.UndisturbedRun`).

## Model

| member | source | states |
|---|---|---|
| Words.HalvesOfWord | src/mc/McServer.hpp:38-45 | the halves of a word are its quotient and remainder by 256, and joining bytes is the sum the shifts give |
| Memory.PlcMemory.SyncMappings | src/core/PlcMemory.cpp:491-528 | the in-place walk over the rules leaves memory and every remembered value exactly as one pass of the engine function, for which all results below are proved |
| Memory.PlcMemory.ReadBlock | src/core/PlcMemory.cpp:56-67 | a ranged read gives the cells of the range, and nothing at all when the range does not fit or is empty |
| Memory.PlcMemory.WriteBlock | src/core/PlcMemory.cpp:76-84 | a ranged write stores all values or, when the range does not fit, none |
| Memory.PlcMemory.WriteValue | src/core/PlcMemory.cpp:424-448 | after a write a bit cell holds 0 for 0 and 1 for any other value, a word cell the value, every other cell what it held; out of range nothing is written |
| Memory.PlcMemory.ReadValue | src/core/PlcMemory.cpp:397-422 | a cell's value, 0 out of range |
| Cells.SizesAre | src/core/PlcMemory.cpp:10-38 | 2048 bits or 1024 words in every area but the four of Modbus |
| Memory.WriteAll | src/core/PlcMemory.cpp:76-84 | after a ranged write every cell of the range holds its own value and every other cell what it held |
| Address.ParseOfName | src/core/PlcMemory.cpp:316-395 | every cell's canonical name, and the documented long form of word areas, parses back to that cell |
| Address.NamesAreInjective | src/core/PlcMemory.cpp:316-395 | no two cells share a name |
| Address.ParsedWidth | src/core/PlcMemory.cpp:316-395 | an accepted address has a 16-bit index and the bit flag of its area; an unknown protocol or area gives a reference to nothing |
| Address.CoilAddresses | src/core/PlcMemory.cpp:337-340 | `MODBUS.COIL.n` and `MODBUS.C.n` are coil n |
| Address.DiscreteInputAddresses | src/core/PlcMemory.cpp:341-344 | `MODBUS.DISCRETE_INPUT.n`, `MODBUS.DI.n` and `MODBUS.I.n` are discrete input n |
| Address.InputRegisterAddresses | src/core/PlcMemory.cpp:345-348 | `MODBUS.INPUT_REGISTER.n` and `MODBUS.IR.n` are input register n |
| Address.HoldingRegisterAddresses | src/core/PlcMemory.cpp:349-352 | `MODBUS.HOLDING_REGISTER.n` and `MODBUS.HR.n` are holding register n |
| Address.S7Addresses | src/core/PlcMemory.cpp:354-369 | `S7.PE.n`, `S7.PA.n`, `S7.DB1.n` and `S7.DB2.n` |
| Address.S7LongAddresses | src/core/PlcMemory.cpp:361-364 | `S7.DB1.W.n` and `S7.DB2.W.n` are the same words |
| Address.McBitAddresses | src/core/PlcMemory.cpp:370-374 | `MC.X.n` to `MC.SM.n`, the seven bit devices |
| Address.McWordAddresses | src/core/PlcMemory.cpp:375-381 | `MC.D.n`, `MC.W.n` and `MC.R.n` |
| Address.McWordFileAddresses | src/core/PlcMemory.cpp:375-381 | `MC.ZR.n` and `MC.SD.n` |
| Address.McLongAddresses | src/core/PlcMemory.cpp:377-378 | `MC.D.W.n`, `MC.W.W.n` and `MC.R.W.n` |
| Address.McLongFileAddresses | src/core/PlcMemory.cpp:377-378 | `MC.ZR.W.n` and `MC.SD.W.n` |
| Address.LsAddresses | src/core/PlcMemory.cpp:383-391 | `LS.I.n`, `LS.Q.n` and `LS.M.n` are bits, `LS.W.n` a word |
| Address.ThreeParts | src/core/PlcMemory.cpp:329-395 | one or two parts are refused; of three the third is the number, cut to 16 bits, refused if it is none; an unknown protocol or area is a reference to nothing |
| Text.StoiReads | src/core/PlcMemory.cpp:340 | a number is read behind white space and a sign, up to the first other character, and refused beyond 32 bits |
| Mapping.StepJoins | src/core/PlcMemory.cpp:495-523 | a rule with equal widths in range leaves both ends and both remembered values equal, to a value one of its ends had, writes at most one of the ends and touches nothing else |
| Mapping.SettledStays | src/core/PlcMemory.cpp:491-528 | once every rule agrees with both its ends, no number of passes changes memory or rules |
| Interleaving.PlausibleStatesAreReached | src/core/PlcMemory.cpp:491-523 | from freshly loaded rules over any memory, one pass with client writes between its rules can end in any memory and any remembered values that the cells can hold |
| MappingGraph.AcyclicRootable | src/core/PlcMemory.cpp:491-528 | rules without a ring, with no two on the same two cells and none from a cell to itself, directions and shared destinations at will, can be hung up as rooted trees |
| Convergence.PassesQuiet | src/core/PlcMemory.cpp:506-522 | after n passes from any state every rule lower than n sees its far end exactly as it remembers it |
| Convergence.QuietRulesNeverWriteUpwards | src/core/PlcMemory.cpp:512-516 | after n passes no rule whose far end is lower than n writes towards the root |
| Convergence.TreesSettle | src/core/PlcMemory.cpp:491-528 | trees of height H, rules drawn in either direction and listed in any order, are settled after 2H passes from any memory and rule state |
| Convergence.ParentFirstTreesSettle | src/core/PlcMemory.cpp:491-528 | listed from the root outwards, they are settled after H + 1 passes |
| Convergence.HungTreesSettle | src/core/PlcMemory.cpp:491-528 | the same with two more passes when trees hang from pairs of opposite rules and cells have rules to themselves |
| Forests.ForestSettles | src/core/PlcMemory.cpp:491-528 | with unique destinations and chains of at most H rules, 2H passes settle every state and further passes change nothing |
| Forests.SourceFirstForestSettles | src/core/PlcMemory.cpp:491-528 | when no rule precedes the one that writes its source, H + 1 passes do |
| Forests.LowRulesNeverWriteTheirSource | src/core/PlcMemory.cpp:512-516 | within pass n + 1 no rule whose destination has height below n writes its source |
| Oscillation.RingOscillates | src/core/PlcMemory.cpp:491-528 | from freshly loaded rules over any memory, for every ring of three or more cells in any directions and list order, and other rules leading away from it, clients can write during the first pass so that no number of later undisturbed passes makes the ends of all rules equal |
| Settling.AcyclicSettles | src/core/PlcMemory.cpp:491-528 | with no two rules on the same two cells: rules that close no ring, shared destinations and rules from a cell to itself included, are settled from any state after two passes per rule, and two more if there are rules from a cell to itself |
| Settling.OrientedSettlesExactly | src/core/PlcMemory.cpp:491-528 | where far ends can be chosen so that no cell is the far end of two rules, the list always settles, from loading on and whatever clients write, if and only if it closes no ring of three or more cells; opposite rules and rules from a cell to itself included |
| Settling.UniqueDestinationsSettleExactly | docs/mapping_engine_guide.md:166 | so for every list whose destinations are all different |
| Settling.CycleUnsettles | src/core/PlcMemory.cpp:491-528 | of rules that close a ring, those on the ring do not always settle by themselves |
| Settling.SettlesExactlyWhenAcyclic | src/core/PlcMemory.cpp:491-528 | with no two rules on the same two cells: every selection from a list always settles if and only if the list closes no ring |
| Flipping.RestlessAlternates | src/core/PlcMemory.cpp:491-528 | where marks make every rule of a closed part see a changed cell in every pass, clients can start, over any memory and within the first pass, that all cells of that part alternate between 0 and 1 with every later pass |
| OddRings.EvenTurnsUnsettle | src/core/PlcMemory.cpp:491-528 | a list with a ring of which no other rule joins two cells does not always settle if, going round one way or the other, an even number of the ring's rules come before their successor in the list |
| OddRings.OddRingUnsettles | src/core/PlcMemory.cpp:491-528 | with no two rules on the same two cells: a list that closes a ring of odd length does not always settle, whatever its other rules |
| Fronts.ScheduledUnsettles | src/core/PlcMemory.cpp:491-528 | where every rule of a closed part can be given its turn in a period of two or more passes, one pulse a period keeps running through that part for ever, and clients can start it within the first pass |
| SlowRules.SpreadIsSensible | src/core/PlcMemory.cpp:495-523 | a spreading change has at every moment come to each cell from a neighbour, by the first firing of their rule after the neighbour had it, and has been handed on by every rule that has fired since |
| SlowRules.Completes | src/core/PlcMemory.cpp:491-528 | after some pass it has come to all cells it can reach |
| SlowRules.SlowRuleUnsettles | src/core/PlcMemory.cpp:491-528 | a list does not always settle if it has a rule whose two ends are connected without it, but so that a change that came through the rule does not get round before the rule fires again, whatever other rules and rings there are, two rules on the same cells included |
| LoneRings.LoneRingIsSlow | src/core/PlcMemory.cpp:491-528 | with no two rules on the same two cells: a rule that lies on exactly one ring is slow, one way or the other |
| LoneRings.RingsApartSettleExactly | src/core/PlcMemory.cpp:491-528 | with no two rules on the same two cells, and no rule on two rings: the list always settles if and only if it closes no ring; rings may share cells |
| ParallelRules.RingKeptStill | src/core/PlcMemory.cpp:491-528 | three rules that close a ring, one of them listed again, are settled from any state after two passes |
| ParallelRules.DoubledStarOscillates | docs/mapping_engine_guide.md:166 | six rules that join one cell with three others, in turn and twice round, in any directions, close no ring and do not always settle |
| ParallelRules.BothWaysStarOscillates | docs/mapping_engine_guide.md:166 | for one: three cells mapped from a fourth, and then back to it |
| Takeover.OneWriteTakesOver | src/core/PlcMemory.cpp:506-522 | after one write into a settled connected group only the old and the new value ever occur, the cells with the new one never become fewer, all n cells have it after n - 1 passes, and pass n settles the group |
| SingleRule.FiringExactly | src/core/PlcMemory.cpp:493-523 | a firing in full: the source goes to the destination in the first pass, when it has changed and when the ends differ unchanged, the destination to the source when it alone has changed; a bit takes whether the value is 0; the rule remembers what it copied |
| SingleRule.WordToBitExactly | src/core/PlcMemory.cpp:424-426 | a word mapped to a bit, for every value v: after one pass the bit is 0 if v is 0 and 1 otherwise, after two passes so is the word |
| SingleRule.SourceSurvivesExactly | src/core/PlcMemory.cpp:498-511 | a value the source newly shows survives two passes if and only if the destination gives it back, that is, exists and is wide enough |
| SingleRule.DestinationSurvivesExactly | src/core/PlcMemory.cpp:512-516 | the same for a value newly written to the destination and the source |
| SingleRule.WordToBitLosesTheWord | src/core/PlcMemory.cpp:498-511 | a register mapped to a coil turns from 7 to 1 in two passes |
| Loader.PlcLoader.SyncInputsToDll | src/core/PlcLoader.cpp:84-111 | pass, then the ownership rules of the input copy: coils only in MANUAL, discrete inputs 0 and 7, all holding registers |
| Loader.PlcLoader.SyncOutputsFromDll | src/core/PlcLoader.cpp:113-143 | the output copy of everything but discrete inputs 0 and 7, then a pass |
| Loader.PlcLoader.ScanOnce | src/core/PlcScheduler.cpp:54-61 | one scan turns the whole plant (memory, rules, logic symbols, hidden logic state) into the scan function of the old plant |
| Scan.InputsReachLogic | src/core/PlcLoader.cpp:84-111 | for every symbol what the logic starts with: holding registers and discrete inputs 0 and 7 from the memory after the pass, coils too when discrete input 0 is 0, all others unchanged |
| Scan.OutputsReachMemory | src/core/PlcLoader.cpp:113-141 | for every symbol what the memory shows: coils and discrete inputs but 0 and 7 as bits, registers as they are |
| Scan.ScanRunsLogicOnce | src/core/PlcScheduler.cpp:54-61 | a scan calls the logic once, with its own number, on those symbols, between a pass and the outputs with another pass |
| Scan.CopyOutWrites | src/core/PlcLoader.cpp:113-141 | with distinct bindings every symbol but the two external controls ends in its own cell and no other cell changes |
| ScanCoherence.CleanPassCopiesHubs | src/core/PlcMemory.cpp:506-522 | once no spoke has changed behind its rule's back, a pass writes no hub and settles the stars |
| ScanCoherence.ScanEndsSettled | src/core/PlcLoader.cpp:84-143 | every scan of a star mapping, from any state and with any logic, ends settled, and its second pass changes no hub |
| ScanCoherence.ScanIsCoherent | src/core/PlcLoader.cpp:84-143 | after any scan every bound cell the runtime owns, and every spoke of it, equals the logic's symbol, and every spoke equals its hub |
| ScanCoherence.RunsAreCoherent | src/core/PlcScheduler.cpp:49-61 | the same after every scan of every run, with any client writes to any cells between scans |
| NonInterference.ScanErasesCoilWrites | src/core/PlcLoader.cpp:88-96 | in AUTO two plants that differ only in bound coils, their spokes and those rules' memories are equal after one scan |
| NonInterference.CoilWritesNeverMatter | src/core/PlcLoader.cpp:88-130 | over AUTO runs of any length, client writes to bound coils and their spokes never make a difference after a scan |
| StarWrites.WriteReachesHub | src/core/PlcMemory.cpp:506-522 | one pass takes a client's write anywhere in a settled star to its hub |
| StarWrites.WriteReachesStar | src/core/PlcMemory.cpp:506-522 | two passes take it to the whole star and settle it again |
| StarWrites.WriteReachesLogic | src/core/PlcLoader.cpp:84-110 | a write to any spoke of a bound holding register, of discrete input 0 or 7, or in MANUAL of a bound coil, is what the logic sees in the next scan |
| EndToEnd.WriterWrites | src/modbus/ModbusServer.cpp:356-446 | sessions with one Modbus 6 or 16, MC word write or XGT continuous write request, and one sync after an S7 client has put words into its data block, store the same block of words, each from its own byte order |
| EndToEnd.WriteAnywhereReadEverywhere | src/core/PlcLoader.cpp:84-143 | from a settled star mapping whose rules are spelled `MODBUS.HR.n` to a word device of MC, `LS.W.n` and `S7.DB1.n`, a block written over a connection of any of the four kinds, or into the S7 data block and synced, is after one scan read back as the same words over Modbus, MC and XGT connections and, after one S7 sync, in the S7 data block |
| Assembly.AssemblyLine.ConfigInit | src/logic/assembly_logic.cpp:45-75 | the initial outputs, registers and positions |
| AssemblySequence.StartsLikeThis | src/logic/assembly_logic.cpp:45-75 | which these are |
| Assembly.AssemblyLine.ConfigRun | src/logic/assembly_logic.cpp:77-255 | one call of the logic, emergency stop, physics and sequence, as a function of the line's state |
| AssemblySafety.RunIsSane | src/logic/assembly_logic.cpp:162-254 | in every run under every mode, emergency stop, speed and manual schedule: states 1 to 7 have the chassis standing at exactly 500 mm with conveyor off and sensor on, states 3 to 5 the clamp closed on its part, all positions in range |
| AssemblySafety.StopBringsArmHome | src/logic/assembly_logic.cpp:83-151 | 29 scans of emergency stop bring the home sensor on from any reachable state, in any mode, with the conveyor where it was |
| AssemblySafety.StopNeeds29 | src/logic/assembly_logic.cpp:83-151 | fewer do not, from a fully rotated arm |
| AssemblySafety.CounterCountsLeaving | src/logic/assembly_logic.cpp:116-120 | the completed-count register goes up exactly when a chassis leaves at 1000 mm |
| AssemblySafety.ChassisConserved | src/logic/assembly_logic.cpp:103-120 | at speeds below 1000, chassis counted plus the one past the station never exceed the releases of state 7, in every run |
| AssemblySafety.ConservedExactly | src/logic/assembly_logic.cpp:108-114 | that holds in all runs with speeds up to v if and only if v is below 1000 |
| AssemblySafety.VisitedIsPrefix | src/logic/assembly_logic.cpp:162-254 | in every run the states since the last return to 0 are a prefix of 8, 1, 2, ..., 7: nothing is skipped or repeated |
| AssemblySafety.ReleaseEndsACycle | src/logic/assembly_logic.cpp:236-249 | every release follows the full state cycle and sends the chassis to 525 mm |
| AssemblyProgress.UndisturbedRun | src/logic/assembly_logic.cpp:102-250 | in AUTO without emergency stop the position never exceeds 525 mm and the completed count never changes |
| AssemblyProgress.TripIsExact | src/logic/assembly_logic.cpp:162-250 | from the trigger on, at any speeds, the state in every scan: 8 until the chassis has arrived, then 1 to 7 at fixed scans with no wait for a part, back in 0 exactly 158 scans after arrival |
| AssemblyProgress.CycleTime | src/logic/assembly_logic.cpp:102-250 | at constant speed v from 1 to 25000 a cycle takes exactly ceil(25000 / v) + 158 scans, not one fewer |
| AssemblySequence.ChassisMoves | src/logic/assembly_logic.cpp:102-121 | position, chassis sensor, count and rounded display after a scan of the machine |
| AssemblySequence.ArmMoves | src/logic/assembly_logic.cpp:123-159 | lift, rotation and clamp, their limit switches, home and part sensors |
| AssemblySequence.LampsShow | src/logic/assembly_logic.cpp:80-100 | the curtain cuts all outputs but clamp and alarm, the alarm changes with every tenth tick; otherwise run lamp on and alarm off |
| AssemblySequence.PositionIsShown | src/logic/assembly_logic.cpp:121 | in every run the display is the position in millimetres, rounded, and does not wrap |
| AssemblySequence.SequenceRests | src/logic/assembly_logic.cpp:162-254 | MANUAL resets the state and touches nothing else, a broken curtain touches nothing |
| AssemblySequence.WaitsForTrigger | src/logic/assembly_logic.cpp:164-178 | state 0: all actuators off until the trigger, which is taken back |
| AssemblySequence.WaitsForChassis | src/logic/assembly_logic.cpp:180-190 | state 8: conveyor on up to the station, on to 1 with a part |
| AssemblySequence.LowersToPick | src/logic/assembly_logic.cpp:192-197 | state 1: lift down until the lower switch |
| AssemblySequence.Clamps | src/logic/assembly_logic.cpp:199-205 | state 2: clamp on until closed, part taken |
| AssemblySequence.Lifts | src/logic/assembly_logic.cpp:207-212 | state 3: lift up until 5 per cent |
| AssemblySequence.Turns | src/logic/assembly_logic.cpp:214-219 | state 4: rotation until the right switch |
| AssemblySequence.LowersToPlace | src/logic/assembly_logic.cpp:221-226 | state 5: lift down until the lower switch |
| AssemblySequence.LetsGo | src/logic/assembly_logic.cpp:228-234 | state 6: clamp off until 5 per cent, done lamp on |
| AssemblySequence.ReturnsHome | src/logic/assembly_logic.cpp:236-249 | state 7: both axes back until home, done lamp off, chassis to 525 mm |
| Trim.TrimLine.ConfigRun | src/logic/trim_logic.cpp:113-371 | one call of the logic, lamps, conveyor, stations and sequence, as a function of the line's state |
| TrimSequence.StartsLikeThis | src/logic/trim_logic.cpp:68-108 | the initial outputs, registers and positions |
| TrimRuns.StepKeepsBalance | src/logic/trim_logic.cpp:329-352 | every scan from every state keeps total = OK + NG modulo 2^16 |
| TrimRuns.LineNeverProduces | src/logic/trim_logic.cpp:146-189 | in every run from initialisation the vehicle stays at or before 200 mm, states 4, 6, 7 and 8 never occur and all three counters stay 0 |
| TrimSequence.CourseIsExact | src/logic/trim_logic.cpp:146-300 | every scan of every undisturbed AUTO run from initialisation, for any torque target up to 450: state, position, display, conveyor, dock and bolt coils, gantry, torque and its reading, station sensors; 200 mm in scan 68, docked in 88, tight in 109 for 450, then at 200 mm for ever |
| TrimSequence.WaitsForTorque | src/logic/trim_logic.cpp:280-289 | from any state of the line: state 2 goes on to 3 exactly in a scan whose torque reading has reached the target, with nutrunner off and gantry back, and keeps bolting otherwise |
| TrimSequence.WaitsForCockpit | src/logic/trim_logic.cpp:259-271 | state 0: conveyor on, all else off, until the cockpit station |
| TrimSequence.WaitsForDock | src/logic/trim_logic.cpp:273-278 | state 1: dock until 95 per cent |
| TrimSequence.WaitsForGlass | src/logic/trim_logic.cpp:291-300 | state 3: conveyor on until the glass station, or on to 5 if bypassed |
| TrimSequence.WaitsForPress | src/logic/trim_logic.cpp:302-310 | state 4: glue until aligned and the force reads 148 |
| TrimSequence.WaitsForSeat | src/logic/trim_logic.cpp:312-318 | state 5: conveyor on until the seat station |
| TrimSequence.WaitsForLifter | src/logic/trim_logic.cpp:320-327 | state 6: lifter down until 95 per cent |
| TrimSequence.JudgesAtInspection | src/logic/trim_logic.cpp:329-352 | state 7: conveyor on until the inspection; good for a torque of 430 to 470 and, unless bypassed, a force of 145 to 155 with enough glue; lamps and counts follow |
| TrimSequence.ShowsResult | src/logic/trim_logic.cpp:355-366 | state 8: until a tick that 50 divides, then the chassis is at 925 mm and state 0 begins |
| TrimSequence.StopCutsOutputs | src/logic/trim_logic.cpp:117-131 | emergency stop: all outputs off but the siren, five scans on and five off, and nothing else changes |
| TrimSequence.ManualResets | src/logic/trim_logic.cpp:369-372 | MANUAL: state 0, actuators as the operator has them |
| TrimSequence.RunningLampFlashes | src/logic/trim_logic.cpp:136-140 | the running lamp changes with every 25th tick |
| TrimSequence.MovedCockpit | src/logic/trim_logic.cpp:192-220 | gantry, torque with its reading, heater with its reading |
| TrimSequence.MovedStations | src/logic/trim_logic.cpp:222-253 | press force with its reading, alignment, glue alarm, seat lifter |
| TrimSequence.MovedChassis | src/logic/trim_logic.cpp:145-190 | where the conveyor takes the chassis, which station sees it, the display |
| TrimSequence.MachineShows | src/logic/trim_logic.cpp:256-372 | the sequence leaves all of these as they are, but that state 8 puts the chassis to 925 mm |
| TrimSequence.HeaterHolds | src/logic/trim_logic.cpp:213-220 | in every run the temperature reads 20 to 40 |
| Tank.MockTank.ConfigRun | src/logic/mock_logic.cpp:45-106 | one call of the logic, level, hysteresis and edge counter, as a function of the tank's state |
| Tank.StartsLikeThis | src/logic/mock_logic.cpp:28-42 | the initial level, valves and registers |
| Tank.AlwaysRegulated | src/logic/mock_logic.cpp:50-90 | in every AUTO run the level stays within one scan's travel of 150 to 850 mm and the valves are never open together |
| Tank.NoChatter | src/logic/mock_logic.cpp:72-102 | two openings of the inlet, so two counts, are at least 4031 scans apart |
| Tank.LevelIsShown | src/logic/mock_logic.cpp:48-69 | the level after a scan in any mode, its display rounded to millimetres, the limit switches |
| Tank.ManualLeavesValves | src/logic/mock_logic.cpp:91-96 | MANUAL leaves both valves as they are and follows the inlet |
| Tank.AutoFillsAndDrains | src/logic/mock_logic.cpp:72-90 | AUTO opens exactly one valve, by the switches with hysteresis |
| Tank.OpeningsAreCounted | src/logic/mock_logic.cpp:98-105 | the count goes up by one when the inlet is open that was not; the lamp is on |
| Scheduler.PlcScheduler.Loop | src/core/PlcScheduler.cpp:40-106 | after any number n of cycles with any clock readings: the plant is initialised, published and scanned n times with ticks 1 to n, the wakeup time, and statistics that are the exact mean, the true maximum and the jitter sum over the cycle count |
| Scheduler.CyclesAgree | src/core/PlcScheduler.cpp:40-61 | whatever memory the loop starts on, after each of its scans every bound cell and every spoke shows the logic's symbol |
| Scheduler.UpdatedIsTruthful | src/core/PlcScheduler.cpp:80-92 | the running-average update keeps the exact means and the true maximum of all cycles so far |
| Scheduler.WakeupIsGreatest | src/core/PlcScheduler.cpp:94-101 | the k-th wakeup is the greatest of t0 + kT and now_j + (k - j)T for j up to k |
| Scheduler.WakeupsKeepDistance | src/core/PlcScheduler.cpp:94-101 | consecutive wakeups are at least a period apart |
| Scheduler.NoDriftExactly | src/core/PlcScheduler.cpp:94-101 | the k-th wakeup is t0 + kT if and only if no cycle so far missed its ideal deadline |
| Scheduler.PeriodIs | src/core/PlcScheduler.cpp:96 | the period is 1000 ns for every whole microsecond of the cycle time: 20,000,000 ns for 20 ms |
| Scheduler.TimesAre | src/core/PlcScheduler.cpp:66-75 | scan time in milliseconds of the readings; jitter as the distance of two starts from one cycle time |
| Modbus.ModbusServer.ProcessRequest | src/modbus/ModbusServer.cpp:221-446 | response and memory for every byte sequence, all function codes and exceptions |
| ModbusWire.BitsAreRead | src/modbus/ModbusServer.cpp:239-291 | function codes 1 and 2: coils, or discrete inputs, eight to a byte, the first lowest, unused bits 0; exception 3 unless 1 to 2000, 2 unless in range |
| ModbusWire.RegistersAreRead | src/modbus/ModbusServer.cpp:293-333 | function codes 3 and 4: holding, or input registers, high byte first; exception 3 unless 1 to 125, 2 unless in range |
| ModbusWire.CoilIsWritten | src/modbus/ModbusServer.cpp:335-354 | function code 5: echo, and that coil alone is 1 for 0xFF00, 0 for 0; the exceptions otherwise |
| ModbusWire.RegisterIsWritten | src/modbus/ModbusServer.cpp:356-370 | function code 6: echo, and that register alone |
| ModbusWire.CoilsAreWritten | src/modbus/ModbusServer.cpp:372-405 | function code 15: those coils alone take the bits sent; the exceptions otherwise |
| ModbusWire.RegistersAreWritten | src/modbus/ModbusServer.cpp:407-437 | function code 16: those registers alone take the words sent; the exceptions otherwise |
| ModbusWire.OthersAreRefused | src/modbus/ModbusServer.cpp:221-231 | no bytes: exception 4; fewer than five: 3; other function codes: 1 |
| ModbusProperties.ResponseFits | src/modbus/ModbusServer.cpp:221-453 | every response, to any request, has 2 to 252 bytes |
| ModbusProperties.OnlyAddressedCellsChange | src/modbus/ModbusServer.cpp:221-446 | no request changes a cell it does not address; one answered by an exception changes none |
| ModbusProperties.RegisterRoundTrip | src/modbus/ModbusServer.cpp:293-374 | code 6 echoes its request and code 3 then reads the value back |
| ModbusProperties.RegistersRoundTrip | src/modbus/ModbusServer.cpp:293-446 | code 16, then code 3 over the same span, gives the same bytes |
| ModbusProperties.CoilsRoundTrip | src/modbus/ModbusServer.cpp:239-405 | code 15, then code 1 over the same span, gives every bit back and padding bits 0 |
| Mc.McServer.ProcessRequest | src/mc/McServer.cpp:242-381 | response and memory for every byte sequence |
| McWire.WordPoints | src/mc/McServer.cpp:11-18 | device codes 0xA8, 0xB4, 0xAF, 0xB0, 0xA9 are the words written `MC.D.n`, `MC.W.n`, `MC.R.n`, `MC.ZR.n`, `MC.SD.n`, no others are words |
| McWire.BitPoints | src/mc/McServer.cpp:20-29 | 0x9C, 0x9D, 0x90, 0x92, 0xA0, 0x93, 0x91 are the bits written `MC.X.n`, Y, M, L, B, F, SM |
| McWire.WordsAreRead | src/mc/McServer.cpp:261-274 | command 0x0401, subcommand 0: the words at those addresses, low byte first, in a frame given byte by byte |
| McWire.BitsAreRead | src/mc/McServer.cpp:278-297 | subcommand 1: the bits, two to a byte, the first in the upper half |
| McWire.WordsAreWritten | src/mc/McServer.cpp:304-323 | command 0x1401, subcommand 0: the words sent are at those addresses and nothing else has changed; refused when data are missing |
| McWire.BitsAreWritten | src/mc/McServer.cpp:325-352 | subcommand 1: the same for bits |
| McWire.OthersAreRefused | src/mc/McServer.cpp:242-400 | end code 0xC051 for short frames and unknown commands and subcommands, 0xC05C for device codes, in a fixed frame, and nothing written |
| McProperties.WordRoundTrip | src/mc/McServer.cpp:261-381 | word write, then word read of an in-range span: the words are in the cells written `MC.D.n` and so on, and the same bytes come back, routing echoed and length field right |
| McProperties.BitRoundTrip | src/mc/McServer.cpp:278-350 | the same for packed bits and any even or odd number of points, in normal form |
| McProperties.NormalKeepsBits | src/mc/McServer.cpp:284-346 | normal form leaves data of 0s and 1s with a clear padding half alone |
| McProperties.LengthFieldExact | src/mc/McServer.cpp:267-375 | the length field of a word read is true if and only if at most 32766 points are read |
| McProperties.OnlyItsAreaChanges | src/mc/McServer.cpp:242-381 | a request changes cells of its own area only, an error or a read none |
| McProperties.OnlyItsPointsChange | src/mc/McServer.cpp:304-350 | and of its area only the points it addresses, cut to 16-bit addresses |
| Xgt.XgtServer.ResolveAddress | src/xgt/XgtServer.cpp:594-659 | which cell a variable name stands for, or that it is refused, for every string |
| Xgt.XgtServer.ProcessRequest | src/xgt/XgtServer.cpp:351-592 | response and memory for every byte sequence; blocks before a bad one stay written |
| XgtProperties.ResolveWordName | src/xgt/XgtServer.cpp:594-659 | the name of word i resolves to word i, for all 16-bit i |
| XgtProperties.EveryWordHasAName | src/xgt/XgtServer.cpp:594-659 | every word has a name that the server takes for it when it arrives as bytes, of at most eight |
| XgtProperties.ResolveBitName | src/xgt/XgtServer.cpp:623-645 | a dotted bit name resolves to its two numbers |
| XgtProperties.WordRoundTrip | src/xgt/XgtServer.cpp:366-460 | a continuous write of any number of bytes but 32, then a continuous read of as many, gives the whole words of the data |
| XgtProperties.ThirtyTwoBytesWriteOneWord | src/xgt/XgtServer.cpp:418-440 | of 32 bytes exactly the first word is stored |
| XgtWire.NamesResolve | src/xgt/XgtServer.cpp:594-659 | names of words, bytes and bits of areas I, Q and M, with or without `%`: words and bytes are in the one word area, bit s of byte a is bit 8a + s of its area, in 16 bits |
| XgtWire.BadNames | src/xgt/XgtServer.cpp:594-659 | names that are too short, of another area or kind, or without a number where one is needed are refused |
| XgtWire.LastTwoNumbersCount | src/xgt/XgtServer.cpp:636-645 | of more than two numbers in the name of a bit the last two count |
| XgtWire.IndividualRead | src/xgt/XgtServer.cpp:463-592 | individual reads of any number of variables: for each, in order, 2 and the word, low byte first, or 1 and the bit, in a frame given byte by byte |
| XgtWire.IndividualWrite | src/xgt/XgtServer.cpp:510-592 | individual writes: the variables take their values one after the other, the length field 0x20 standing for 2 |
| XgtWire.OneBlockWritesOneCell | src/xgt/XgtServer.cpp:555-565 | one block changes exactly its cell, to the value sent |
| XgtWire.ReadStops | src/xgt/XgtServer.cpp:465-489 | at a name that is not understood, or at the end, a read answers status 0x1102 and what it has |
| XgtWire.WriteStops | src/xgt/XgtServer.cpp:512-537 | a write answers that status and keeps the blocks before |
| XgtWire.WriteStopsAtData | src/xgt/XgtServer.cpp:539-553 | and so at data that are cut off |
| XgtWire.ContinuousRead | src/xgt/XgtServer.cpp:388-406 | a continuous read: the byte count and the words from the named one on, 16-bit addresses |
| XgtWire.ContinuousWrite | src/xgt/XgtServer.cpp:408-434 | a continuous write: those words and nothing else, 0x20 bytes standing for 2 |
| XgtWire.ContinuousRefused | src/xgt/XgtServer.cpp:388-460 | status 0x1102 where count or data are cut off or the name is not understood, 0x00FF for another command, and nothing written |
| XgtWire.WordReadBack | src/xgt/XgtServer.cpp:388-565 | a word written individually is what a continuous read of it gives, by any of its names |
| XgtWire.CutOffRequests | src/xgt/XgtServer.cpp:351-377 | fewer than 30 bytes, or a continuous name that is cut off: a fixed frame |
| XgtWire.OtherCommands | src/xgt/XgtServer.cpp:566-592 | a command that is neither 0x54 nor 0x58: status 0x00FF |
| XgtWire.Companies | src/xgt/XgtServer.cpp:166-171 | headers begin with LSIS-XGT or LGIS-GLO |
| XgtWire.IndividualReadFetched | src/xgt/XgtServer.cpp:249-278 | of an individual read the recovery walk fetches exactly its bytes, from any length field that does not overstate it |
| XgtWire.IndividualWriteFetched | src/xgt/XgtServer.cpp:249-321 | the same for an individual write |
| XgtReader.ReceiveXgt | src/xgt/XgtServer.cpp:147-327 | the reader with its recovery walk takes from the stream exactly the bytes that the walk needs, however they arrive |
| XgtReader.HandleXgtClient | src/xgt/XgtServer.cpp:141-339 | a session's responses and its effect on memory are a function of the byte stream alone |
| XgtAgreement.DrainedRequestsPassSizeChecks | src/xgt/XgtServer.cpp:214-321 | a request the walk completes is never refused for its sizes: the status is an error exactly when one of its names does not resolve |
| XgtAgreement.ShortLengthFieldsAreHarmless | src/xgt/XgtServer.cpp:196-221 | a length field that stops short of the real end leads to the same request as a right one |
| Connection.Socket.ReadFully | src/modbus/ModbusServer.cpp:152-190 | a receive loop gets exactly the next n bytes of the stream or reports its end, for every way of cutting it |
| Framing.ModbusFrames | src/modbus/ModbusServer.cpp:163-190 | a frame is one with protocol 0 and a length field of 2 to 250 whose bytes have all come |
| Framing.McFrames | src/mc/McServer.cpp:184-208 | a frame is one with subheader 0x50 0x00 and a length field of 1 to 2048 whose bytes have all come |
| Framing.HeaderIsEchoed | src/modbus/ModbusServer.cpp:195-201 | the answer has the transaction, protocol and unit of the request and its own length |
| Framing.HandleModbusClient | src/modbus/ModbusServer.cpp:146-208 | a session's responses and effect on memory are a function of the byte stream alone |
| Framing.HandleMcClient | src/mc/McServer.cpp:165-229 | the same for MC 3E frames |
| Delivery.ModbusDeliveredExactly | src/modbus/ModbusServer.cpp:163-190 | whatever follows it, a request reaches the processor if and only if its PDU has 1 to 249 bytes |
| Delivery.RegistersDeliveredExactly | src/modbus/ModbusServer.cpp:163-190 | a well-formed function code 16 request if and only if it writes at most 121 registers |
| Delivery.CoilsDeliveredExactly | src/modbus/ModbusServer.cpp:163-190 | a well-formed function code 15 request if and only if it writes at most 1944 coils |
| Delivery.McDeliveredExactly | src/mc/McServer.cpp:184-208 | an MC request if and only if its data has at most 2036 bytes |
| Delivery.XgtDeliveredExactly | src/xgt/XgtServer.cpp:166-321 | an XGT continuous request whose length field does not overstate its body is framed if and only if the field is from 1 to 2048, and the walk then fetches the whole body, however long, unless it writes 32 bytes |
| S7.S7Server.SyncBeforeCycle | src/s7/S7Server.cpp:110-146 | client writes are found by comparison with the shadow and merged into memory |
| S7.S7Server.SyncAfterCycle | src/s7/S7Server.cpp:148-202 | buffers and shadows become the published form of memory |
| S7.S7Server.SyncOnce | src/s7/S7Server.cpp:89-95 | one turn of the sync thread is the round of which the following speak |
| S7.SyncMerges | src/s7/S7Server.cpp:110-202 | after a round each data word is the client's if its buffer differed from the shadow and memory's otherwise, all other cells are untouched, and buffer, shadow and memory agree |
| S7.ChangeIsSeen | src/s7/S7Server.cpp:110-146 | a word counts as changed if either byte differs, and is then read high byte first |
| S7.WholeAreasAreThere | src/s7/S7Server.cpp:148-202 | every word of both data blocks and every bit of both images is published |
| S7.PublishedWord | src/s7/S7Server.cpp:175-201 | an S7 client reads each word big-endian |
| S7.ImageBit | src/s7/S7Server.cpp:151-173 | bit j of byte b of an image is cell 8b + j |
| S7.MemoryWritesAreNotEchoed | src/s7/S7Server.cpp:110-202 | what memory changes between rounds is never taken for a client's write, and a round without changes is the identity |

## Left out

- Settling.SettlesExactlyWhenAcyclic: speaks of every selection from a list. For the list itself, with no two rules on the same two cells, it is open whether a ring always unsettles it where all of these hold: all rings have even length, those without a chord turn an odd number of times each way round, every rule of a ring lies on two rings or more, and none is slow.
- Interleaving.PlausibleStatesAreReached: client writes fall between two rules; the finer steps inside a rule, between its two reads and its write, are not modelled.
- Memory.PlcMemory.SyncMappings: rules hold their two references already parsed; the cells are one map from (area, index), where the code has a vector per area; mutexes are not modelled.
- Address.ParseOfName: the address parser is a function and no method, and strings of protocol and area are merged into one area, unknown ones into `Nowhere`.
- Loader.PlcLoader.ScanOnce: a scan is atomic; a client's write that falls between input copy and output copy of a holding register is lost in the code and not modelled.
- NonInterference.CoilWritesNeverMatter: for client writes between scans, to star mappings around Modbus cells.
- EndToEnd.WriteAnywhereReadEverywhere: for 1 to 125 words, the most one Modbus read takes, of which function code 16 carries 121, and no bindings; XGT carries any such number but 16, which is the 32-byte case above, and by its continuous requests only; one request a session; the S7 client writes between two rounds of the sync, over buffers that agree with memory.
- Assembly.AssemblyLine.ConfigRun: positions are whole grid steps instead of `double`, so rounding of repeated additions is not modelled; the same holds for the trim line and the tank.
- Trim.TrimLine.ConfigRun: the jitter expressions of torque and press force, which wrap as unsigned numbers, are arbitrary inputs.
- TrimRuns.LineNeverProduces: the three counters are not written from outside.
- TrimSequence.CourseIsExact: for torque targets up to 450; above, the reading in which the target may be reached is the jitter of the simulated tool, for which `WaitsForTorque` holds.
- Tank.AlwaysRegulated: in AUTO; in MANUAL the valves are the operator's.
- Scheduler.PlcScheduler.Loop: clock readings are inputs, statistics are reals, and no client writes while it runs; `ScanCoherence.RunsAreCoherent` has client writes between scans.
- Xgt.XgtServer.ProcessRequest: bytes behind the end of a too short last block read as 0; in the code their value is undefined.
- XgtReader.HandleXgtClient: a failing send ends a session in the code; here, and for the other two servers, all sends succeed.
- S7.S7Server.SyncBeforeCycle: the calls to snap7 that exchange the buffers with clients are left out.
- Loading of control logic at run time, and symbol lookup: the logic of a scan is any function on its symbols and hidden state.
- Loading of mapping files and the tag list, and replacing the rules while running: they rest on a JSON library that is not part of this model.
- Sockets, threads, logging, terminal and web interface, MQTT publishing.
