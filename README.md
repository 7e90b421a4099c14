# SPIKE robot blocks and pygame replay, modelled in Dafny

This project models three Python files.

- `working_spike.py` and `WIP_Spike.py` hold the "My Blocks" procedures of a LEGO SPIKE Prime robot:
  - angle normalization and the shortest signed heading error;
  - clamping, `_to_float` coercion, and the percent-to-degrees-per-second mapping;
  - line follow, gyro turn and gyro follow;
  - the `wait_until` polling helper.
- `spike_to_pygame.py` turns a robot file into a list of typed instruction records and replays them on a virtual board:
  - it reads the file's syntax tree and keeps the calls inside each `*_main` function;
  - the records are grouped by source function;
  - the replay moves a robot dict (`x`, `y`, `heading`, `status`) under a shared stop flag;
  - a manual-control frame drives the same dict from the arrow keys.

The modules follow the program's structure:

| module | file | contents |
|---|---|---|
| `Values` | values.dfy | Option, Result, the Python literal values, `float()`, truthiness, `x or default`, the `x in (None, "")` test |
| `Helpers` | helpers.dfy | `clamp`, `_to_float`, `int()` truncation, Python float `%`, congruence mod 360, `normalize_angle`, `shortest_error` |
| `SpikeControl` | spike_control.dfy | the blocks of working_spike.py |
| `WipControl` | wip_control.dfy | the blocks of WIP_Spike.py where they differ |
| `Extraction` | extraction.dfy | `deg_to_mm`, `node_name`, `extract_calls_from_func`, the classification in `parse_spike_file`, the grouping by source function |
| `Replay` | replay.dfy | the replay steps as functions of a pose |
| `Simulation` | simulation.dfy | class `Simulator`, which holds the robot dict and the stop flag and runs the replay in place |

The helpers `clamp`, `_to_float`, `normalize_angle` and `shortest_error` are textually the same code in working_spike.py and WIP_Spike.py. One Dafny member models each of them for both files.

Sensors are sequences of readings, one per loop pass. Each reading is a number, None, or an exception.

Actuator calls are `Command` values appended to a returned log. Every polling loop is a method that takes the readings and returns two things: the commands it issued, and the pass at which it stopped (None while it would still be polling).

The syntax tree arrives already walked. A module is its list of top-level statements. A function is its list of call nodes in walk order. Every argument is already literal-evaluated, with None when it is not a literal.

A string literal carries the value `float()` gives it, or None when `float()` raises. This is how the model follows Python without reimplementing its number parser.

Congruence modulo 360 is stated without quantifiers: `(a - b) / 360` is a whole number.

Python's `int()` on floats is `Trunc`, which truncates toward zero. Python's float `%` is `Mod360`, whose remainder is in [0, 360).

The replay functions in `Replay` are the specification. Each `Simulator` method runs the source's loops on the object's fields and is proved to end in the state those functions compute. Lemmas about those functions prove the properties the source promises.

## Model

| member | source | states |
|---|---|---|
| Values.FloatOf | working_spike.py:43-44 | `float()` of a number is that number; of True and False it is 1.0 and 0.0; a tuple, list or set raises |
| Values.Truthy | spike_to_pygame.py:403 | a number or bool is true exactly when its float is not 0; a string exactly when it is not empty |
| Values.OrElse | spike_to_pygame.py:377 | `x or default`: a truthy present value is kept; an absent or falsy one gives the default |
| Values.Blank | working_spike.py:168 | an argument in (None, "") is None or the empty string, so it is falsy and `x or default` gives the default for it |
| Helpers.Clamp | working_spike.py:32-37 | lo below the range, hi above it, v unchanged otherwise; for lo <= hi the result is in [lo, hi], and equals v exactly when v is in range |
| Helpers.ClampOdd | working_spike.py:32-37 | clamping to a symmetric range commutes with negation |
| Helpers.ClampMonotone | WIP_Spike.py:15-18 | clamping is monotone in the clamped value |
| Helpers.ToFloat | working_spike.py:40-46 | None and values `float()` rejects become 0.0; any other value is its float |
| Helpers.Trunc | working_spike.py:90 | `int()` of a float truncates toward zero: the result is within 1 of r, on the side of 0 |
| Helpers.TruncOdd | working_spike.py:90 | truncation commutes with negation |
| Helpers.TruncOfInt | working_spike.py:128 | truncating an integer-valued steering gives the integer back |
| Helpers.Mod360 | spike_to_pygame.py:396 | Python's `h % 360` on floats lies in [0, 360) and is congruent to h |
| Helpers.Normalize | working_spike.py:49-56 | the normalized angle is in (-180, 180] and congruent to the input mod 360 |
| Helpers.NormalizeAngle | working_spike.py:49-56 | the two while loops that add or subtract 360 end on exactly Normalize(a) |
| Helpers.NormalizeIsUnique | working_spike.py:49-56 | any angle in (-180, 180] congruent to a is Normalize(a), so the range is a canonical form |
| Helpers.NormalizeFixesCanonical | working_spike.py:49-56 | angles already in (-180, 180] are returned unchanged |
| Helpers.NormalizeIdempotent | working_spike.py:49-56 | normalizing twice is normalizing once |
| Helpers.NormalizeHalfTurn | working_spike.py:49-56 | 180 maps to 180, and -180 maps to 180 |
| Helpers.NormalizeCongruent | WIP_Spike.py:27-32 | congruent inputs give the same normalized angle |
| Helpers.ShortestError | working_spike.py:74-76 | the error is in (-180, 180], and current + error is congruent to target |
| Helpers.ShortestErrorIsShortest | working_spike.py:74-76 | no rotation taking current onto target is smaller in magnitude |
| Helpers.ShortestErrorSwap | working_spike.py:74-76 | swapping target and current negates the error, except at the half turn, which is +180 both ways |
| Helpers.ShortestErrorZero | WIP_Spike.py:45-47 | the error is 0 exactly when the headings are congruent mod 360 |
| SpikeControl.DpsOf | working_spike.py:88-90 | the result is in [-1000, 1000]; within [-100, 100] it is trunc(pct * 10); it saturates beyond |
| SpikeControl.PctToDps | working_spike.py:88-90 | same range; None or an unparsable percentage gives 0; a parsable one gives DpsOf of its float |
| SpikeControl.DpsOdd | working_spike.py:88-90 | reversing the percentage reverses the speed exactly |
| SpikeControl.PairMoveSteering | working_spike.py:123-131 | one motor_pair.move with velocity pct_to_dps(speed) and steering in [-100, 100]: trunc(steering) in range, 100 at or above 100, -100 at or below -100 |
| SpikeControl.YawDeg | working_spike.py:59-71 | the yaw in (-180, 180], congruent to -0.1 times the decidegree reading; 0 when the read fails |
| SpikeControl.ReflectedLight | working_spike.py:141-147 | the reading, or the default 50 when the sensor gives None or raises |
| SpikeControl.DegreesCounted | working_spike.py:98-103 | the encoder reading, or 0 when it is None or raises |
| SpikeControl.LineSettingsOf | working_spike.py:168-171 | the defaults are speed 50, gain 1, target 50 and line side 1 for None or ""; line side is truncated |
| SpikeControl.LineError | working_spike.py:176-180 | line side 1 gives (target - reflect) * gain; any other side gives (reflect - target) * gain |
| SpikeControl.LineErrorSides | working_spike.py:176-180 | the two line sides give opposite errors |
| SpikeControl.Power | working_spike.py:184-185 | `int(clamp(p, -100, 100))` is in [-100, 100]; it is trunc(p) in range and saturates beyond |
| SpikeControl.WheelPowers | working_spike.py:182-185 | left is Power(-(speed + err)) and right is Power(speed - err), both in [-100, 100] |
| SpikeControl.WheelPowersOnLine | working_spike.py:182-185 | with no error the left and right powers are opposite |
| SpikeControl.WheelPowersMonotone | working_spike.py:182-185 | both powers decrease as the error grows |
| SpikeControl.LineFollow | working_spike.py:159-188 | two motor.run commands, LEFT then RIGHT, with pct_to_dps of the wheel powers of the defaulted settings and the light reading; both within ±1000 |
| SpikeControl.LineFollowOnTarget | working_spike.py:174-188 | a reflectance equal to the target drives the two motors at opposite velocities |
| SpikeControl.WaitUntil | working_spike.py:12-26 | returns True at the first pass whose predicate holds and False at the first pass past a given timeout; a raising predicate counts as not yet; with no timeout it never returns False |
| SpikeControl.TurnSettingsOf | working_spike.py:196-198 | the defaults are steering 0, heading 0 and speed 50; the target is normalized into (-180, 180] |
| SpikeControl.TurnReached | working_spike.py:209 | when the stop test holds, a rotation of at most 2 degrees takes the yaw onto the target on the circle |
| SpikeControl.TurnReachedOnCircle | working_spike.py:208-209 | any yaw that a rotation of at most 2 degrees takes onto the target satisfies the stop test, even across the ±180 seam |
| SpikeControl.GyroTurn | working_spike.py:191-211 | one move command, then a stop at the first yaw within 2 degrees of the target; no earlier yaw was within tolerance; without such a yaw, no stop |
| SpikeControl.FollowSettingsOf | working_spike.py:225-240 | the defaults are heading 0 (normalized), gain 1 and speed 50; no distance limit when the distance is None or "" |
| SpikeControl.FollowSteering | working_spike.py:244-249 | trunc(clamp(shortest_error * kP, -100, 100)): in [-100, 100], saturating, and with the sign of the scaled error |
| SpikeControl.FollowDone | working_spike.py:253-264 | a callable condition returning true ends the loop; otherwise (not callable, raising, or false) only the right-encoder distance does; an encoder without a reading never reaches a positive distance |
| SpikeControl.FollowNeverStops | working_spike.py:236-265 | with no distance and no callable condition the exit test never holds |
| SpikeControl.FollowCommand | working_spike.py:244-250 | a motor_pair.move at pct_to_dps(speed) that drives straight on heading and otherwise steers with the sign of the scaled error |
| SpikeControl.FollowCommandIsMove | working_spike.py:249-250 | the integer steering reaches motor_pair.move unchanged, with the speed as pct_to_dps |
| SpikeControl.GyroFollow | working_spike.py:214-269 | every pass issues the steering command before the exit test; the loop stops, then issues a stop, at the first pass whose encoder reaches the distance or whose condition returns true; a raising or non-callable condition never stops it |
| WipControl.WipYaw | WIP_Spike.py:34-43 | the normalized yaw face reading, in (-180, 180] and unchanged when already in range; 0 when the sensor gives None or raises |
| WipControl.WipLineFollow | WIP_Spike.py:56-86 | two duty-cycle commands on ports A and B with the wheel powers in [-100, 100]; a None reflectance reads as 0 |
| WipControl.WipLineFollowOnTarget | WIP_Spike.py:75-86 | a reflectance equal to the target gives opposite duty cycles |
| WipControl.WipTurnReached | WIP_Spike.py:97-98 | when the WIP stop test holds, a rotation of at most 2 degrees takes the yaw onto the target on the circle |
| WipControl.WipTurnReachedOnCircle | WIP_Spike.py:97-98 | the WIP tolerance test passes for any yaw within 2 degrees of the target on the circle |
| WipControl.WipFollowDone | WIP_Spike.py:139-152 | a callable condition returning true ends the loop; otherwise (not callable, raising, or false) only the raw `port.B` position reaching the distance does |
| WipControl.WipGyroFollow | WIP_Spike.py:102-155 | set_default_speed once, then one motor_pair.start per pass with the proportional steering; stop at the first pass whose raw encoder reaches the distance or whose condition returns true; a raising condition is ignored |
| Extraction.DegToMm | spike_to_pygame.py:29-30 | for a positive radius the distance has the sign of the rotation; zero rotation or zero radius gives 0 |
| Extraction.DegToMmLinear | spike_to_pygame.py:29-30 | the rolled distance is linear in the rotation |
| Extraction.DegToMmFullTurn | spike_to_pygame.py:29-30 | 360 degrees roll one circumference, 2·pi·r |
| Extraction.DottedName | spike_to_pygame.py:33-46 | a Name gives its id; only a non-Name, non-Attribute node gives None |
| Extraction.DottedNameAttribute | spike_to_pygame.py:37-45 | an attribute on a named chain extends the chain's dotted name by "." and the attribute |
| Extraction.NodeName | spike_to_pygame.py:33-46 | the loop that collects attributes and the root, then joins them reversed, gives DottedName (root first) |
| Extraction.KeywordsOf | spike_to_pygame.py:63-65 | the keyword dict has no more entries than keywords, and at least one when there is a keyword |
| Extraction.KeywordsOfKeys | spike_to_pygame.py:65-67 | the keyword dict holds exactly the keyword names given |
| Extraction.KeywordsOfLastWins | spike_to_pygame.py:65-67 | each name maps to the value of its last occurrence |
| Extraction.CallOf | spike_to_pygame.py:58-68 | a node gives a record exactly when it has a dotted name; the record has that dotted name, the node's positional values and line, and the node's named keyword values |
| Extraction.ExtractedCalls | spike_to_pygame.py:55-69 | there are no more records than call nodes |
| Extraction.ExtractedCallsFromNodes | spike_to_pygame.py:55-69 | every extracted call comes from a named node, every named node's call is extracted, and with no nameless node there is one call per node |
| Extraction.ExtractedCallsAppend | spike_to_pygame.py:55-69 | extraction keeps walk order: the calls of a + b are the calls of a followed by those of b |
| Extraction.ExtractCalls | spike_to_pygame.py:57-71 | the extraction loop records exactly ExtractedCalls, in walk order |
| Extraction.KwGet | spike_to_pygame.py:84 | a keyword present wins, even when its value is None; otherwise the positional default |
| Extraction.MmOf | spike_to_pygame.py:138-142 | None stays None; a number becomes deg_to_mm of it; an unparsable value is a parse failure at that line |
| Extraction.Classify | spike_to_pygame.py:83-186 | the record type follows the first matching suffix; keywords override positionals per type and the keyword-only fields are `kw.get(name)`; mm = deg_to_mm(float(deg), r) and px = mm * pixel_scale, each None exactly when its degree field is; unmatched calls keep their raw arguments; the call fails exactly when its degree field is present and float() rejects it, with that value and line |
| Extraction.KindOf | spike_to_pygame.py:83-184 | each kind's suffix ends the name and no suffix tried before it does |
| Extraction.KindPriority | spike_to_pygame.py:83-184 | gyro_follow beats gyro_turn, which beats the motor suffixes; a raw call matches none of the five suffixes |
| Extraction.EntriesOf | spike_to_pygame.py:81-187 | a successful parse of a function gives one entry per call, all from that function |
| Extraction.ParseModule | spike_to_pygame.py:77-188 | every entry of a successful parse comes from a function whose name ends in `_main` |
| Extraction.EntriesOfShape | spike_to_pygame.py:81-187 | one entry per call, carrying the function name, line and call name, and the classified record |
| Extraction.EntriesOfSucceeds | spike_to_pygame.py:81-187 | a function's calls parse exactly when every one of them classifies; a failure carries the error of the first call that does not |
| Extraction.ParseModuleOnlyMains | spike_to_pygame.py:78-79 | every entry comes from a top-level function whose name ends in `_main` |
| Extraction.ParseModuleSingle | spike_to_pygame.py:78-80 | one statement contributes the entries of its calls when it is a `*_main` function, and nothing otherwise |
| Extraction.ParseModuleAppend | spike_to_pygame.py:78-187 | parsing a + b is parsing a, then b, with the first failure winning and the entries kept in order |
| Extraction.ParseModuleSucceeds | spike_to_pygame.py:78-187 | a module parses exactly when the calls of each of its `*_main` functions parse |
| Extraction.ParseModuleSplit | spike_to_pygame.py:78-187 | in a successful parse every `*_main` function's entries appear in place, after those of the statements before it and before those after it |
| Extraction.ParseSpikeFile | spike_to_pygame.py:74-188 | the nested loops over statements and calls give ParseModule, including its failure |
| Extraction.ClassifyCalls | spike_to_pygame.py:81-187 | the inner loop gives EntriesOf: one entry per call in order, or the first failure |
| Extraction.EntriesFromAppend | spike_to_pygame.py:249-251 | grouping distributes over concatenation, so each group keeps the entries' relative order |
| Extraction.EntriesFromMembers | spike_to_pygame.py:249-251 | a group holds exactly the entries with that source function |
| Extraction.SourcesMembers | spike_to_pygame.py:249-251 | a name is a group key exactly when some entry comes from it |
| Extraction.GroupBySource | spike_to_pygame.py:249-251 | the setdefault/append loop gives exactly the source functions present as keys, each mapped to its entries in order |
| Replay.Board.ClampX | spike_to_pygame.py:351 | `max(left, min(x, right))` lies on the board and changes x only when it is off the board |
| Replay.Board.ClampY | spike_to_pygame.py:352 | `max(top, min(y, bottom))` likewise for y |
| Replay.InitialPose | spike_to_pygame.py:344-352 | the start pose is on the board, unchanged when already on it, with heading 0 and status Idle |
| Replay.TurnError | spike_to_pygame.py:389 | `(t - h + 180) % 360 - 180` lies in [-180, 180) and is congruent to t - h |
| Replay.CopySign | spike_to_pygame.py:394 | math.copysign: the magnitude of m with the sign of s |
| Replay.TurnStep | spike_to_pygame.py:394 | the step is at most the error and at most rot / 30, equals one of them, and has the error's sign |
| Replay.TurnStepError | spike_to_pygame.py:389-396 | after one frame the wrapped error is exactly the old error minus the step, without overshooting, and the frame measure drops |
| Replay.StepShrinks | spike_to_pygame.py:394 | taking the step off an error beyond 1 degree moves it towards 0 without crossing 0 |
| Replay.TurnTrace | spike_to_pygame.py:384-397 | the animation shows no frame exactly when the start is within the 1-degree snap |
| Replay.TurnTraceFrames | spike_to_pygame.py:384-397 | every animated heading is in [0, 360) and closer to the target than the start; each frame is one step after the previous; the last is within 1 degree; the animation is finite |
| Replay.FallbackSpeed | spike_to_pygame.py:412 | `50 * speed_scale * run_speed_mult` is positive for positive scales |
| Replay.FollowSpeed | spike_to_pygame.py:402-412 | an absent or falsy speed gives the fallback; a truthy speed float() rejects is a crash; otherwise the converted speed, always positive |
| Replay.ConvertedSpeed | spike_to_pygame.py:404-410 | a positive wheel speed gives deg_to_mm of it times the scales; a non-positive one gives the fallback |
| Replay.StepCount | spike_to_pygame.py:413-414 | at least one frame; more than one only when the 60 Hz frame count floors to that number |
| Replay.Slide | spike_to_pygame.py:416-441 | a slide that left the board did at least one frame and ends on the board's edge |
| Replay.SlideEnds | spike_to_pygame.py:416-441 | a slide from the board ends on it; if it never left, the robot moved by exactly n slices |
| Replay.SlideExitFrame | spike_to_pygame.py:416-441 | a slide that left the board left it at some frame k: every earlier frame was on the board, frame k was off it, and the slide ends at frame k's position clamped by `max(left, min(x, right))` and `max(top, min(y, bottom))` |
| Replay.SliceProduct | spike_to_pygame.py:415-422 | n slices of dist / n add up to the whole distance along the heading |
| Replay.TranslateSlide | spike_to_pygame.py:413-441 | the `steps` frames of `dist / steps` mm from a pose on the board end on the board, and on its edge when they left it |
| Replay.Translate | spike_to_pygame.py:413-442 | a translation keeps the heading and a raised stop flag; the status changes only to "Out of bounds", and then the flag is up |
| Replay.TranslateEnds | spike_to_pygame.py:416-441 | a translation keeps the robot on the board and its heading; leaving the board sets "Out of bounds" and the stop flag and leaves the robot on the board's edge; staying on changes neither |
| Replay.TranslateDisplacement | spike_to_pygame.py:415-422 | a translation that stays on the board moves the robot by dist * pixel_scale along cos/sin of the heading |
| Replay.TurnRun | spike_to_pygame.py:372-396 | skipped when the heading is None; a crash exactly when float() rejects the speed (90 when absent or falsy) or the heading; a completed turn ends on float(heading); only the heading changes |
| Replay.TurnRate | spike_to_pygame.py:378-382 | with positive scales the rotation rate is never negative and is 0 exactly for a speed of 0 |
| Replay.TurnRunHangsOnlyAtZero | spike_to_pygame.py:379-396 | with positive scales a turn spins forever exactly when the speed converts to 0 and the error exceeds the 1-degree snap |
| Replay.MmOrZero | spike_to_pygame.py:399 | `mm or 0.0`: None gives 0, and a nonzero distance is the recorded one |
| Replay.Apply | spike_to_pygame.py:371-480 | only turns change the heading; only turns hang; a crash (turn or follow) leaves the pose unchanged; an unfinished record keeps the status and flag; run_to_relative_position and raw calls do nothing |
| Replay.ApplyKeepsBoard | spike_to_pygame.py:371-480 | each record keeps the pose on the board; only a translation that leaves it changes the status and raises the flag; turns do not move the robot; other records change nothing |
| Replay.ApplyStaysOnBoard | spike_to_pygame.py:371-480 | from any pose on the board, whatever its status and flag, a record ends on the board |
| Replay.ApplyTurn | spike_to_pygame.py:372-397 | a gyro_turn record runs the turn loop; a completed turn with a heading ends at float(heading) with the position kept |
| Replay.ApplyFollow | spike_to_pygame.py:398-442 | a gyro_follow with a nonzero distance crashes exactly when its speed cannot be converted; otherwise it drives that distance at the follow speed and completes |
| Replay.ApplyMotor | spike_to_pygame.py:443-475 | motor_run_for_degrees and motor_pair_move_for_degrees drive their mm (0 when absent) at 50·speed_scale·run_speed_mult mm/s and complete |
| Replay.ApplySkipsZeroFollow | spike_to_pygame.py:399-401 | a gyro_follow without a distance, or with distance 0, is skipped |
| Replay.RunList | spike_to_pygame.py:366-481 | an empty list or a raised stop flag replays nothing; a crash or an endless turn ends with the flag down |
| Replay.RunInstructionsFrom | spike_to_pygame.py:366-370 | the flag is cleared first: an empty list only clears it, and a flag left up by an earlier run does not skip the first record; a crash or an endless turn ends with the flag down |
| Replay.RunListSingle | spike_to_pygame.py:366-371 | with the stop flag down, a one-record list replays exactly that record |
| Replay.RunListAppend | spike_to_pygame.py:368-370 | replaying a + b is replaying a, then b only if a completed without raising the stop flag; so once a record leaves the board no later record runs |
| Replay.RunListKeepsBoard | spike_to_pygame.py:366-481 | a whole replay stays on the board and ends with the stop flag up exactly when the status became "Out of bounds" |
| Replay.RunListStaysOnBoard | spike_to_pygame.py:366-481 | a replay from anywhere on the board ends on the board, even after an earlier "Out of bounds" |
| Replay.FrameTime | spike_to_pygame.py:554 | `max(1/60, clock_ms / 1000)` is at least 1/60 and is one of the two |
| Replay.ManualFrame | spike_to_pygame.py:554-584 | no key held changes nothing; any key held raises the stop flag; the status is kept; the heading turns by +d with right and by -d with left, d = 120·speed_scale·dt, up to whole turns |
| Replay.ManualFrameKeepsBoard | spike_to_pygame.py:555-584 | a manual frame keeps the status; it raises the stop flag when a key is held; a rotation leaves the heading in [0, 360); with forward or back held the position becomes the old one plus 200·speed_scale·dt mm (negated for back) along the new heading, clamped to the board; no key changes nothing |
| Replay.ManualTurnCongruent | spike_to_pygame.py:565-568 | applying the left then the right rotation, each reduced mod 360, is congruent to the heading plus the net rotation |
| Replay.ManualRotationCancels | spike_to_pygame.py:565-568 | holding left and right together leaves the heading at its own value mod 360 |
| Simulation.Simulator.constructor | spike_to_pygame.py:344-352 | the robot dict starts at InitialPose, on the board for a valid config |
| Simulation.Simulator.AnimateTurn | spike_to_pygame.py:384-397 | the frame loop shows exactly TurnTrace and ends with the heading on the target; nothing else changes |
| Simulation.Simulator.ReplayTurn | spike_to_pygame.py:372-397 | the gyro_turn branch ends in the state and outcome TurnRun gives, shows the frames of TurnTrace, and keeps the robot valid |
| Simulation.Simulator.Move | spike_to_pygame.py:413-442 | the step loop ends in the pose Translate gives and keeps a robot on the board on it |
| Simulation.Simulator.ApplyInstruction | spike_to_pygame.py:371-480 | one record's branch ends in the state and outcome Apply gives and keeps the robot valid |
| Simulation.Simulator.RunInstructions | spike_to_pygame.py:366-481 | clearing the flag and replaying the list ends in the state RunInstructionsFrom gives and keeps the robot valid |
| Simulation.Simulator.ManualStep | spike_to_pygame.py:554-584 | the manual-control frame ends in the pose ManualFrame gives and keeps the robot valid |

## Left out

- Hardware drivers (`motor`, `motor_pair`, `motion_sensor`, `color_sensor`, `force_sensor`) become readings and logged commands. `pair_setup`, `reset_degrees`, `motion_sensor.reset_yaw` and `motor.reset_relative_position` are not logged, because they only reset hardware state that the readings already reflect. `run_motor_pct` is not modelled because no block calls it.
- `SpikeControl.WaitUntil`: elapsed time is given per pass as an input, not computed from `utime.ticks_ms`. Tick wrap-around and `sleep_ms` are not modelled.
- The pygame window: sizing, image loading, the event loop, drawing and buttons. Status changes to Manual, Running and Stopped happen in the event loop and are not modelled. The status type still has those values.
- Threading: the stop flag is a plain boolean. The flag can only change between the checks at spike_to_pygame.py:369, 385, 417 and 454 when another thread (a key press or the Stop button) sets it. So the checks inside the turn and step loops never fire in the model and are not modelled.
- Timing: `clock.tick` is left out. The manual frame takes `clock.get_time()` as an input.
- Trigonometry: `math.radians`, `math.cos` and `math.sin` are two given functions of the config (`cosDeg`, `sinDeg`). `math.pi` is its 16-digit decimal, and only the sign, linearity and full-turn value of `deg_to_mm` are proved.
- Floating point: all arithmetic is on reals. IEEE rounding, NaN and infinities (such as `float("nan")` as a speed) are not modelled.
- Parsing and I/O: `ast.parse`, `ast.walk`, `ast.literal_eval`, `Path.read_text`, argparse and JSON output. A function arrives as its call nodes in walk order, with every argument already evaluated.
- `Extraction.Classify`: the condition field keeps the literal value rather than `str()` of it. `str()` formatting of Python values is not modelled.
- `KNOWN_FUNCS` is never read. The `main()` mission scripts are data, not logic.
- WIP_Spike.py line 94 is a syntax error, a positional argument after a keyword. Only the tolerance test of that gyro turn is modelled (`WipControl.WipTurnReached`).
- WIP_Spike.py line 65 reads the sensor on `port.A` of the shadowed `port` parameter, and lines 85-86 drive `port.A` and `port.B` of that same parameter. The read sits before the `try` of lines 68-71, so a failing read raises out of the function instead of falling back to 50; the `try` only guards a plain assignment. The model takes the reading as an input value and does not model the raised exception.
- `WipControl.WipGyroFollow`: the raw `motor.relative_position` read is taken as a number. An exception or a None from it would escape the loop, and that is not modelled.
- The process-wide globals `n_Error`, `n_TargetHeading` and `n_CurrentHeading` are locals.
- `Simulation.Simulator.ReplayTurn`, `Simulation.Simulator.ApplyInstruction` and `Simulation.Simulator.RunInstructions` require a valid config: a board with left <= right and top <= bottom, and positive `speed_scale` and `run_speed_mult`. The source does not check these.
  - A negative rotation speed makes `copysign(min(|err|, rot/30), err)` step by |rot|/30 and overshoot. That is not modelled.
  - Under a valid config a turn record whose speed converts to 0 is modelled as an outcome `Hangs`, because the source loops forever on it.
- Leaving the board raises the stop flag, so the rest of the list is skipped as well (`Replay.RunListAppend`).
- WIP_Spike.py:11 rebinds the name `motor_pair` to the object that `motor_pair.pair(...)` returns. Lines 137 and 155 then call `start` and `stop` on it without a pair id. The model logs these as `PairStart` and `PairStop` on that one pair. What the returned object does is not part of this model.
