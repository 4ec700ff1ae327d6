# Bed partition and seed-mode parsing of the Lisbon hospital seeder

This project is a verified model of two parts of the seeding scripts of a small
hospital-triage service. The service keeps Lisbon hospitals and the patients
waiting for them. The two parts are:

* **The bed partition of a hospital** (`build_manchester_levels` and the
  hospital `seed` run in `scripts/src/hospitals.rs`). A hospital's total
  number of beds is split across the five Manchester triage levels, from
  "Emergência (Vermelho)" to "Não Urgente (Azul)", in three steps:
  1. A floor pass lifts every provisional share to at least one bed.
  2. Two reverse-order walks add beds to the levels, or remove beds from
     levels holding more than one, until the allocation sums to the
     hospital's capacity.
  3. The beds are zipped with the level configuration and a waiting time
     drawn from each level's range.

  The seeding run clears both tables, then writes the eight hospital
  blueprints, each followed by its five triage levels. It reports how many
  hospitals and levels it wrote.
* **The patient seed mode** (`scripts/src/patients.rs`). `Reset` and
  `Append` have the canonical labels "reset" and "append", and the display
  form is the label. The parser trims Unicode white space, lowers ASCII
  letters and accepts three spellings per mode. Anything else is rejected
  with a message that quotes the normalised input. The patient seeding run
  empties the table in `Reset` mode, keeps it in `Append` mode, and inserts
  five to ten patients. Each patient gets a listed triage condition and a
  position inside a fixed box around Lisbon.

The project has four modules:

* `Allocation` (`allocation.dfy`) holds the reference definitions of the
  bed partition, stated as whole passes:
  * `Floored`, the floor pass;
  * `IncrementPass` and `RaisedTo`, the increment walk;
  * `DecrementPass` and `LoweredTo`, the decrement walk;
  * `Reconciled`, both walks in turn.

  It also holds the properties proved about them.
* `Hospitals` (`hospitals.dfy`) holds the level configuration, the
  blueprints and the seeding run against an in-memory store. It also has
  the step-by-step loops the seeder runs on the allocation array. Each of
  those loops is proved equal to its reference definition. The source
  breaks out of a reverse `for` loop once the count matches. Here that is
  a single-exit `while idx > 0 && assigned != total` loop, which takes the
  same steps and stops in the same state.
* `Text` (`text.dfy`) models the two standard-library string operations the
  parser relies on: `str::trim`, which removes characters with the Unicode
  White_Space property, and `str::to_ascii_lowercase`.
* `Patients` (`patients.dfy`) holds the seed mode, its label, display form
  and parser, and the patient seeding run against an in-memory store.

## Model

| member | source | states |
|---|---|---|
| Allocation.Floored | scripts/src/hospitals.rs:185-189 | After the floor pass the length is unchanged and every level holds at least one bed. A level that already held one or more is unchanged, and a level at zero or below becomes exactly one. |
| Hospitals.FloorAtOne | scripts/src/hospitals.rs:185-189 | The in-place floor pass over the allocation array leaves exactly `Floored` of the old contents. |
| Allocation.SumRaiseLast | scripts/src/hospitals.rs:194-199 | An increment pass that stops after `d` levels adds exactly `d` beds. |
| Allocation.IncrementPass | scripts/src/hospitals.rs:194-200 | One reverse increment pass keeps the length and adds at least one bed. It never goes past the total, and it raises each level by zero or one bed. |
| Allocation.RaisedTo | scripts/src/hospitals.rs:193-201 | The increment walk keeps the length and the positivity of every level. It brings a short allocation up to exactly the total and leaves any other allocation's sum unchanged. |
| Hospitals.RaisePass | scripts/src/hospitals.rs:194-200 | The step-by-step reverse `for` pass with its early exit leaves `IncrementPass` of the contents at entry. The returned count is the new sum. |
| Hospitals.AddMissingBeds | scripts/src/hospitals.rs:193-201 | The outer increment loop ends. The array then equals `RaisedTo` of the old contents and every level is still positive. The count is the array's sum: the total when beds were missing, the old sum otherwise. |
| Allocation.LowerLast | scripts/src/hospitals.rs:204-212 | A decrement pass that stops after lowering `e` levels keeps the length, removes exactly `e` beds and keeps every level positive. |
| Allocation.LowerLastPointwise | scripts/src/hospitals.rs:205-207 | A decrement pass changes a level only if it held more than one bed, and then by exactly one bed. |
| Allocation.DecrementPassMakesProgress | scripts/src/hospitals.rs:203-213 | While a positive allocation holds more beds than it has levels, some level holds more than one bed, so a decrement pass can lower it. |
| Allocation.DecrementPass | scripts/src/hospitals.rs:204-212 | If the total is at least the number of levels, one reverse decrement pass removes at least one bed. It never goes below the total and keeps every level positive. |
| Allocation.LoweredTo | scripts/src/hospitals.rs:203-213 | If the total is at least the number of levels, the decrement walk keeps the length and every level positive. It brings an allocation above the total down to exactly the total and leaves any other allocation's sum unchanged. |
| Allocation.PassFromLowered | scripts/src/hospitals.rs:204-212 | Take a loop state in which the levels before `h` are untouched and every level from `h` on that held more than one bed lost one. That state is the decrement pass over the levels it lowered. |
| Allocation.LowerLastSuffix | scripts/src/hospitals.rs:204-212 | A decrement pass that has handled the levels from `h` on equals the prefix before `h` followed by a full pass over the rest. |
| Hospitals.LowerPass | scripts/src/hospitals.rs:204-212 | The step-by-step reverse `for` pass, with its "more than one" guard and early exit, leaves `DecrementPass` of the contents at entry. The returned count is the new sum. |
| Hospitals.RemoveExcessBeds | scripts/src/hospitals.rs:203-213 | When the total is at least the number of levels, the outer decrement loop ends. The array then equals `LoweredTo` of the old contents and every level is still positive. The count is the array's sum: the total when beds were in excess, the old sum otherwise. |
| Allocation.Reconciled | scripts/src/hospitals.rs:191-213 | Reconciliation keeps the length, every level holds at least one bed, and the beds add up to exactly the total. |
| Hospitals.Reconcile | scripts/src/hospitals.rs:191-213 | The running sum followed by both loops leaves exactly `Reconciled` of the floored allocation. |
| Allocation.InfeasibleBelowLevelCount | scripts/src/hospitals.rs:203-213 | No allocation with at least one bed per level sums to less than the number of levels. So with a smaller total the decrement loop, which keeps every level at one or more and stops only on an exact sum, cannot stop. |
| Allocation.AllOnesPassIsStuck | scripts/src/hospitals.rs:204-212 | Once every level is down to one bed, a decrement pass lowers nothing and leaves the allocation as it was. |
| Allocation.TightIsAllOnes | scripts/src/hospitals.rs:203-213 | A positive allocation whose sum equals its number of levels has one bed on every level. |
| Allocation.ReconciledAtLevelCount | scripts/src/hospitals.rs:191-213 | With a total equal to the number of levels, every level ends with exactly one bed. |
| Allocation.ReconciledIdempotent | scripts/src/hospitals.rs:191-213 | An allocation that already sums to the total is left unchanged by both loops, so reconciling twice gives the same result as reconciling once. |
| Allocation.RaisedInOnePass | scripts/src/hospitals.rs:193-201 | A deficit no larger than the number of levels is covered within the first reverse pass. |
| Allocation.SmallDeficit | scripts/src/hospitals.rs:193-201 | A deficit `d` smaller than the number of levels gives one bed to each of exactly the last `d` levels. The other levels are unchanged. |
| Allocation.FourHundredTwentyBeds | scripts/src/hospitals.rs:193-201 | The provisional allocation [14, 37, 115, 115, 138] with 420 beds becomes [14, 37, 115, 115, 139]. |
| Allocation.RaisedToRaises | scripts/src/hospitals.rs:193-201 | The increment walk never takes a bed away from any level. |
| Allocation.LoweredToLowers | scripts/src/hospitals.rs:203-213 | The decrement walk never adds a bed to any level. |
| Allocation.LoweredToKeepsOnes | scripts/src/hospitals.rs:205-207 | A level holding one bed still holds one after the decrement walk. |
| Allocation.ReconciledOneWay | scripts/src/hospitals.rs:191-213 | An allocation short of the total only gains beds, level by level. One above the total only loses beds. |
| Hospitals.LevelSeeds | scripts/src/hospitals.rs:215-223 | There is one triage level per configuration entry, in configuration order. Entry `i` carries the configuration's name, the `i`-th drawn wait and the `i`-th bed count. |
| Hospitals.Beds | scripts/src/hospitals.rs:221 | The bed column has one entry per level, and entry `i` is level `i`'s bed count. |
| Hospitals.BuildManchesterLevels | scripts/src/hospitals.rs:180-223 | The result has five levels named after the configuration, in order, and each waiting time lies within its level's range. The bed column equals `Reconciled(Floored(provisional))`: it sums to the hospital's capacity and every level holds at least one bed. |
| Hospitals.DrawManchesterLevels | scripts/src/hospitals.rs:173-223 | For any rounded provisional allocation the sampling could produce, the five levels are in configuration order, have waits within range, hold at least one bed each and sum to the capacity. |
| Hospitals.HospitalStore.InsertHospital | scripts/src/hospitals.rs:48-56 | The stored hospital row takes the blueprint's name, position and capacity and receives the next id. Nothing else changes. |
| Hospitals.HospitalStore.InsertLevel | scripts/src/hospitals.rs:59-67 | Appends one triage-level row and changes nothing else. |
| Hospitals.HospitalStore.DeleteAllLevels | scripts/src/hospitals.rs:41 | Empties the triage-level table. |
| Hospitals.HospitalStore.DeleteAllHospitals | scripts/src/hospitals.rs:42 | Empties the hospital table. |
| Hospitals.StoredLevels | scripts/src/hospitals.rs:58-67 | Storing the levels built for a hospital gives its five rows. The rows are in configuration order, owned by that hospital and positive, their waits are in range and their beds sum to its capacity. |
| Hospitals.BlueprintsHoldEveryLevel | scripts/src/hospitals.rs:81-132 | There are eight blueprints, and each has at least one bed per triage level. |
| Hospitals.SeedHospital | scripts/src/hospitals.rs:47-70 | One loop iteration inserts the hospital under the next id and appends its five level rows after the existing ones. The existing rows are kept, and the iteration counts five rows. |
| Hospitals.SeedBlueprints | scripts/src/hospitals.rs:37-79 | After clearing both tables, the store holds one hospital per blueprint in blueprint order. Hospital `k` has the blueprint's name, latitude, longitude and capacity under id `nextId + k`, so each hospital gets its own id. Each is followed by its five level rows. The report counts the hospitals and the level rows written. |
| Hospitals.SeedHospitals | scripts/src/hospitals.rs:37-79 | A run over the eight Lisbon hospitals reports 8 hospitals and 40 triage levels. Each stored hospital holds its blueprint's name, position and capacity under consecutive fresh ids, and owns a valid five-level partition of its beds. |
| Text.TrimStart | scripts/src/patients.rs:53 | The result is a suffix of the input, everything dropped is white space, and the result does not start with white space. |
| Text.TrimEnd | scripts/src/patients.rs:53 | The result is a prefix of the input, everything dropped is white space, and the result does not end with white space. |
| Text.Trim | scripts/src/patients.rs:53 | The trimmed string neither starts nor ends with white space. |
| Text.ToAsciiLowercase | scripts/src/patients.rs:53 | Lowering keeps the length and maps each character on its own: ASCII capitals become small letters and everything else is kept. |
| Text.TrimPadded | scripts/src/patients.rs:53 | Trimming any white-space padding from around a core that neither starts nor ends with white space gives back exactly the core. |
| Text.TrimIdempotent | scripts/src/patients.rs:53 | Trimming twice gives the same result as trimming once. |
| Text.AsciiLowercaseIdempotent | scripts/src/patients.rs:53 | The lowered string contains no ASCII capitals, so lowering twice gives the same result as lowering once. |
| Text.TrimLowered | scripts/src/patients.rs:53 | Trimming and ASCII lowering commute. |
| Patients.Label | scripts/src/patients.rs:35-40 | The label is "reset" exactly for `Reset`, and "append" otherwise. Each label is one of its own mode's accepted spellings. |
| Patients.ModeNamed | scripts/src/patients.rs:54-58 | A normalised input gives `Ok(Reset)` exactly when it is "reset", "replace" or "clear", and `Ok(Append)` exactly when it is "append", "add" or "keep". Anything else gives an error whose message quotes the input. |
| Patients.FromStr | scripts/src/patients.rs:52-60 | The same three outcomes as `ModeNamed`, decided on the trimmed and ASCII-lowered input. The error message quotes that normalised string. |
| Patients.FromStrLabel | scripts/src/patients.rs:52-55 | Parsing a mode's label gives that mode back. |
| Patients.Display | scripts/src/patients.rs:43-47 | The display form is the label, and it parses back to the mode. |
| Patients.FromStrIgnoresPadding | scripts/src/patients.rs:53 | White space around the input does not change the parse. |
| Patients.FromStrIgnoresCase | scripts/src/patients.rs:53 | Inputs that differ only in ASCII letter case parse alike. |
| Patients.FromStrAliases | scripts/src/patients.rs:53-55 | Each of the six spellings parses to its mode, in any ASCII case and with any surrounding white space. |
| Patients.PaddedCapitalReset | scripts/src/patients.rs:53-54 | " RESET " parses to `Reset`. |
| Patients.UnknownModeRejected | scripts/src/patients.rs:56-58 | "  Wipe\n" is rejected with the message for "wipe": the message quotes the trimmed, lowered input, not the raw one. |
| Patients.ConditionsAreTriageLevels | scripts/src/patients.rs:10-16 | The patient conditions are the hospitals' triage-level names, in the same order. |
| Patients.PatientStore.DeleteAll | scripts/src/patients.rs:66-68 | Empties the patients table. |
| Patients.PatientStore.Insert | scripts/src/patients.rs:78-85 | Appends one patient row under the next id and changes nothing else. |
| Patients.SeedPatients | scripts/src/patients.rs:63-96 | Five to ten patients are inserted, each with a listed condition and a position inside the box, and the report's total is the number of stored rows. In `Reset` mode the total equals the number inserted. In `Append` mode the earlier rows are kept in place and the total is the old count plus the number inserted. |

## Left out

- The `f32` share sampling, normalisation and rounding (scripts/src/hospitals.rs:173-183) are floating-point computations and are not modelled. `BuildManchesterLevels` takes the rounded provisional allocation as an input of any values. `DrawManchesterLevels` picks an arbitrary one of length five.
- Random draws are modelled as nondeterministic choices within the drawn ranges: waiting times, the patient count, the condition index and the coordinates. Nothing about their distribution is modelled.
- Database transactions, commit, async execution and the error paths of every database call (the `?` returns) are not modelled. Both stores are in-memory sequences that only grow or are emptied, and ids come from a counter.
- Hospitals.RemoveExcessBeds: requires the total to be at least the number of levels. Below that, the source's decrement loop never ends, and the source has no error path for it. `InfeasibleBelowLevelCount` and `AllOnesPassIsStuck` show why the loop cannot stop. All eight blueprints meet the requirement (`BlueprintsHoldEveryLevel`).
- Hospitals.AddMissingBeds: requires at least one level. With no levels the source's increment loop would spin without changing anything. The seeder always has five levels.
- Integer widths (`i32` bed counts, `i64` waits, `usize` counts) are unbounded integers here. Overflow of the running bed sum is not modelled, because the capacities are a few hundred beds.
- Coordinates are `real` values instead of `f64`, so rounding of the drawn coordinates is not modelled.
- Patients.SeedPatients: the source counts the patients after commit, outside the transaction, so a concurrent writer could change that count. The model counts the rows in the store.
- Display writes the label into a formatter. The model returns the written string, and formatter errors are not modelled.
- The Google Maps routes client (src/google_maps/routes.rs), the migrations, the entity declarations and src/main.rs are not part of this model: they are network, schema and printing code.
