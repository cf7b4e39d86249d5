# Verified models of a robot work cell

Dafny models of the parts of a Universal Robots work cell where the logic is hard: the geometry of calibrated arms, the
template engine for robot scripts, the real-time data exchange (RTDE) client with its threads and its binary format, the
connection bookkeeping, the asynchronous handshakes between threads, and the matching of camera detections. Each model
does what the C++ or Python code does, branch by branch. What is proved of it holds for all inputs, all runs and all
interleavings; where the code does not do what one would expect, the exact condition under which it does is proved.
`dafny verify dfyconfig.toml` checks everything.

## How it is organised

| file | what it models |
|---|---|
| Geometry, Calibration, DenavitHartenberg, CalibrationTheorem | Denavit-Hartenberg chains and their forward kinematics, the correction of shoulder and elbow, and exactly when it preserves them |
| Quaternions | quaternions to rotation matrices and back |
| Strings, Sequences, Wrappers | splitting and joining, leaving out elements, options and results |
| ScriptConditionals, ScriptDocuments, ScriptVariables, ScriptPlaceholders | if/elif/else/endif blocks and `{{ variables }}` of script templates |
| DataPackages, WireFormat | RTDE data packages, their bytes, and the parser |
| RtdeWriter, RtdeWriterRuns, RtdeWriterHistory, RtdeSetters | what the setters tell the robot, and the two-buffer protocol between setters and the writer thread |
| BackgroundReader | the two-buffer protocol between the reading thread and consumers |
| RtdeClient | negotiation and setup, through retries and shrinking recipes |
| TcpServer, ReverseInterface | descriptor set, client list and the single client of the reverse interface |
| ForceMode, InstructionExecutor, ScriptMonitor | handshakes between a waiting thread and the thread that serves it |
| PrepareScript | wrapping, naming and validating a script |
| VisionVote, NearestMatching | matching detections over several frames, and averaging them; when nearest first finds every match |
| Circles | squares, and points of a circle, for the plane of the detections |

A class mirrors each stateful object; its methods are the steps that the source takes between two points where another
thread can see their effect, and each ensures that the new state is a function `Step` of the old one. The lemmas then
speak about all sequences of such steps. A step that is not possible in a state leaves it unchanged in `Step`, so that
every sequence of events is a run.

Angles are pairs of cosine and sine, and square roots are a parameter that is assumed to be one (`IsSqrt`). Doubles of the
RTDE protocol are their 64-bit words; comparisons of them follow IEEE 754.

## What turned out not to hold

Each of these but the last comes with the exact condition, and with a case in which it fails.

- `correctAxis` does not keep the kinematics for every chain it accepts: `CorrectChainPreservesKinematics`, `FlippedLinkMoves`.
- A value left in one of the writer's two buffers is sent again after a newer one: `NewestIsSentExactly`,
  `OldRegisterIsSentAgain`.
- `init` does not retry after a negotiation that the robot refused while the connection stayed up (`InitExactly`,
  `NoRetryOnceRefused`), and returns true on a client that an exception left half set up (`SecondInitExactly`,
  `ThrowLeavesInitializing`).
- A waiting consumer can time out with new data there: `TimesOutDespiteNewData`, `TimedOutWithNewExactly`.
- `setForceMode` can fail although force mode starts, and `disableForceMode` succeed although it has just been started:
  `SuccessExactly`, `FailureThoughStarted`, `DisabledThoughStarted`.
- The late success of a cancelled motion is taken for the next motion's: `OwnResultExactly`, `EarlierSuccessIsTaken`.
- A result that comes before the running flag is set is lost, and the loop then waits for another event:
  `TakesEffectExactly`, `ReleasedExactly`, `EndsExactly`, `EarlyResultIsDropped`.
- A robot that reconnects while its old connection is being dropped is turned away: `TakenExactly`,
  `QuickReconnectIsTurnedAway`.
- Taking the nearest detection first can miss a match that exists: `NearestFirstIsCompleteExactly`, `GreedyMissesMatch`.
- Replacing variables never ends where a value holds a placeholder of its own key behind a text without opening braces:
  `SelfReferenceLoops`. It does end wherever the values can be weighed, for one where none leads back to itself:
  `CostFalls`, `RankedIsTame`. That is sufficient, not necessary: keys can be put together from several values.

## Model

| member | source | states |
|---|---|---|
| `UrCalibration.Calibration.constructor` | ws/src/Universal_Robots_ROS2_Driver/ur_calibration/src/calibration.cpp:50-53 | A calibration starts with the chain of its segments. |
| `UrCalibration.Calibration.BuildChain` | ws/src/Universal_Robots_ROS2_Driver/ur_calibration/src/calibration.cpp:176-194 | The chain is the one that the segments define, whose poses `DenavitHartenberg.KinematicsIsTextbook` gives matrix by matrix: two transforms a segment, the screw of `d` and `theta` and the passive part of `a` and `alpha`. |
| `UrCalibration.Calibration.CorrectAxis` | ws/src/Universal_Robots_ROS2_Driver/ur_calibration/src/calibration.cpp:65-158 | Through the line of the next joint axis and its intersection with the plane, the three entries become: screw with `d` zero towards (or, with a link length, away from) the foot point; passive part with length minus its distance; next `d` longer by `d / abs(cos alpha)`. Nothing else changes, and nothing at all where `d` is zero. |
| `UrCalibration.NextAxis` | ws/src/Universal_Robots_ROS2_Driver/ur_calibration/src/calibration.cpp:93-104 | The line through the next joint's root and the end of its screw, normalised, is the next joint axis up to its sign. |
| `UrCalibration.PiercesPlane` | ws/src/Universal_Robots_ROS2_Driver/ur_calibration/src/calibration.cpp:113-120 | In whichever direction the line runs, it meets the plane in the same foot point, which lies in the plane. |
| `UrCalibration.Calibration.CorrectChain` | ws/src/Universal_Robots_ROS2_Driver/ur_calibration/src/calibration.cpp:59-63 | Links 1 and 2 are corrected in that order; both offsets are then exactly zero, and a chain in which they were zero stays as it is. |
| `UrCalibration.Calibration.GetSimplified` | ws/src/Universal_Robots_ROS2_Driver/ur_calibration/src/calibration.cpp:196-216 | Each passive part is merged with the screw of the next link. |
| `UrCalibration.Calibration.CalcForwardKinematics` | ws/src/Universal_Robots_ROS2_Driver/ur_calibration/src/calibration.cpp:160-174 | The loop computes the product of links and joint rotations. |
| `DenavitHartenberg.ForwardKinematicsAsBuilt` | ws/src/Universal_Robots_ROS2_Driver/ur_calibration/src/calibration.cpp:50-53 | Calling forward kinematics on a chain just built returns, for every link number, the product of the Denavit-Hartenberg matrices of the links before, written by their entries from `d`, `a`, `alpha` and `theta` plus the joint angle, and then the joint; behind the last passive part one more turn about z. |
| `DenavitHartenberg.KinematicsIsTextbook` | ws/src/Universal_Robots_ROS2_Driver/ur_calibration/src/calibration.cpp:160-216 | The same of the simplified chain, for all segments and joint vectors and every link number up to one more than there are segments. |
| `Geometry.ComposeIsProduct` | ws/src/Universal_Robots_ROS2_Driver/ur_calibration/src/calibration.cpp:170 | Composing two poses is multiplying their 4x4 matrices: each entry is a row times a column. |
| `CalibrationTheorem.CorrectChainPreservesKinematics` | ws/src/Universal_Robots_ROS2_Driver/ur_calibration/src/calibration.cpp:59-216 | For every chain of four or more segments in which the corrections are defined, and every link number from 4 on: forward kinematics is the same for all joint vectors if and only if both corrections are harmless, that is the offset is zero, or `cos alpha > 0` and the link has a length (or no twist). |
| `CalibrationTheorem.KinematicsIff` | ws/src/Universal_Robots_ROS2_Driver/ur_calibration/src/calibration.cpp:59-216 | For one joint vector: the pose is unchanged exactly if the drift of shoulder and elbow cancel at the angle of the joint between them. |
| `CalibrationTheorem.FlippedLinkMoves` | ws/src/Universal_Robots_ROS2_Driver/ur_calibration/src/calibration.cpp:139-142 | A concrete chain, with a link that turns the next axis upside down, for which the correction moves the end effector. |
| `Quaternions.QuaternionRoundTrip` | ws/src/vzlet_control/scripts/pipeline_motion.py:516-558 | For every non-zero quaternion, matrix and back is plus or minus the normalised quaternion, whichever of the four branches runs. |
| `Quaternions.DivisorAtLeastTwo` | ws/src/vzlet_control/scripts/pipeline_motion.py:526-552 | The divisor of the branch taken is at least 2, for every matrix of numbers. |
| `Quaternions.MatrixRoundTrip` | ws/src/vzlet_control/scripts/pipeline_motion.py:516-558 | Every proper rotation matrix comes back from its quaternion. |
| `Quaternions.QuaternionRotates` | ws/src/vzlet_control/scripts/pipeline_motion.py:516-524 | For every non-zero quaternion the matrix turns a vector as the normalised quaternion does: it is q v q*, by Hamilton's product. |
| `Strings.SplitString` | ws/src/Universal_Robots_Client_Library/src/helpers.cpp:148-163 | The loop cuts at successive leftmost occurrences of the delimiter, and ends. |
| `Strings.SplitThenJoin` | ws/src/Universal_Robots_Client_Library/src/helpers.cpp:148-163 | Joining the pieces gives the string back, and no piece contains the delimiter. |
| `Strings.JoinThenSplit` | ws/src/Universal_Robots_Client_Library/src/rtde/control_package_setup_outputs.cpp:83-86 | Splitting the joined names gives the names back if and only if none of them contains the comma. |
| `Strings.JoinRecipe` | ws/src/Universal_Robots_Client_Library/src/rtde/control_package_setup_outputs.cpp:76-86 | Appending a comma to each name and popping the last one is joining with commas; an empty recipe makes no request. |
| `ScriptConditionals.ReplaceConditionals` | ws/src/Universal_Robots_Client_Library/src/control/script_reader.cpp:232-307 | The loop over lines with its stack writes what the line machine writes, joined by newlines, and throws where it does. |
| `ScriptDocuments.MachineRendersBalanced` | ws/src/Universal_Robots_Client_Library/src/control/script_reader.cpp:232-307 | Every template whose blocks balance has a meaning as a tree, and the machine writes exactly the lines of that meaning; it throws exactly if some condition anywhere in it, in dead branches too, cannot be evaluated. |
| `ScriptDocuments.MachineRendersAny` | ws/src/Universal_Robots_Client_Library/src/control/script_reader.cpp:232-307 | The same for every template, balanced or not: its meaning is that of the tree of its lines, without the branch lines and endifs that belong to no block and with blocks still open at the end closed; the text returned, split at newlines, is the lines of that meaning. |
| `ScriptDocuments.RunRepaired` | ws/src/Universal_Robots_Client_Library/src/control/script_reader.cpp:256-288 | On any stack the machine writes the same with the stray lines left out and the open blocks closed. |
| `ScriptDocuments.GetLinesAreSplit` | ws/src/Universal_Robots_Client_Library/src/control/script_reader.cpp:246 | The lines read are the pieces of the text between newlines, without an empty one at the end. |
| `ScriptDocuments.MachineRendersDocument` | ws/src/Universal_Robots_Client_Library/src/control/script_reader.cpp:232-307 | The same for the lines of a given tree: at most one branch of each block is rendered, and none inside a dead parent. |
| `ScriptDocuments.RunDocument` | ws/src/Universal_Robots_Client_Library/src/control/script_reader.cpp:246-304 | In front of any lines and on top of any stack, a document contributes its rendering if the surrounding block is live, and nothing if it is not. |
| `ScriptDocuments.ParseDocument` | ws/src/Universal_Robots_Client_Library/src/control/script_reader.cpp:246-304 | Every balanced sequence of lines is the lines of a document. |
| `ScriptDocuments.ParentsAlwaysKnown` | ws/src/Universal_Robots_Client_Library/src/control/script_reader.cpp:252-288 | After any lines, nested well or not, every stack entry's `parent_render` is the `should_render` of the entry below, and nothing is rendered inside what is not. |
| `ScriptVariables.ReplaceVariables` | ws/src/Universal_Robots_Client_Library/src/control/script_reader.cpp:184-230 | The loop ends, returns the replaced text without any placeholder left, or fails with a key that is not given. |
| `ScriptVariables.CostFalls` | ws/src/Universal_Robots_Client_Library/src/control/script_reader.cpp:184-230 | Why it ends: where braces can be weighed so that each value weighs less than the placeholder it replaces, every pass makes the script lighter, even if a new placeholder forms where texts meet. |
| `ScriptVariables.RankedIsTame` | ws/src/Universal_Robots_Client_Library/src/control/script_reader.cpp:184-230 | They can where values refer to one another in placeholders but never in a circle. |
| `ScriptVariables.FewBracesAreTame` | ws/src/Universal_Robots_Client_Library/src/control/script_reader.cpp:184-230 | And where no value holds more than one opening brace. |
| `ScriptVariables.OwnKeyIsNotTame` | ws/src/Universal_Robots_Client_Library/src/control/script_reader.cpp:191-229 | But not where a value starts with, or otherwise holds first, a placeholder of its own key. |
| `ScriptVariables.PlaceholderMatches` | ws/src/Universal_Robots_Client_Library/src/control/script_reader.cpp:186 | The pattern matches a placeholder in one way only. |
| `ScriptPlaceholders.MatchesHolesExactly` | ws/src/Universal_Robots_Client_Library/src/control/script_reader.cpp:186 | At every index the pattern matches if and only if the text there is two braces, white space, a key of letters, digits, underscores and hyphens, white space and two braces; the match then covers just that and its key is that key. |
| `ScriptPlaceholders.LoopComputesMeaning` | ws/src/Universal_Robots_Client_Library/src/control/script_reader.cpp:184-230 | A script read as text and placeholders, where text and values hold no opening brace, becomes the text with each placeholder replaced by the value of its key, or fails with the first unknown key. |
| `ScriptPlaceholders.LoopEndsAfterPasses` | ws/src/Universal_Robots_Client_Library/src/control/script_reader.cpp:188-229 | Wherever the loop ends, it has made some number of passes, and ends at a text without placeholder or at one whose first key is unknown. |
| `ScriptVariables.SearchIsLeftmost` | ws/src/Universal_Robots_Client_Library/src/control/script_reader.cpp:188 | What is found is the leftmost placeholder; nothing is found only if there is none. |
| `ScriptVariables.ReplaceRemovesBraces` | ws/src/Universal_Robots_Client_Library/src/control/script_reader.cpp:228 | Each pass removes exactly two opening braces and adds those of the value. |
| `ScriptVariables.ReplacedIsFree` | ws/src/Universal_Robots_Client_Library/src/control/script_reader.cpp:184-230 | Whatever the loop returns holds no placeholder. |
| `ScriptVariables.LoopIsSweep` | ws/src/Universal_Robots_Client_Library/src/control/script_reader.cpp:184-230 | Where one simultaneous substitution succeeds, the loop gives the same text if and only if the substituted text holds no placeholder. |
| `ScriptVariables.StraylessLoopIsSweep` | ws/src/Universal_Robots_Client_Library/src/control/script_reader.cpp:184-230 | If every double brace opens a placeholder and no value holds a brace, the loop is one simultaneous substitution, with the same text or the same unknown key. |
| `ScriptVariables.SelfReferenceLoops` | ws/src/Universal_Robots_Client_Library/src/control/script_reader.cpp:184-230 | The loop never ends where a value is a text without opening brace, a placeholder of its own key, and any text: from any script that holds such a placeholder behind a text without opening brace, the script after n passes, for every n, is that placeholder with n copies of the value's text on either side. |
| `DataPackages.DataPackage.InitEmpty` | ws/src/Universal_Robots_Client_Library/src/rtde/data_package.cpp:463-476 | The fields are the recipe's, each zero of its type, or the first unknown name is reported. |
| `WireFormat.EmptyFieldsExactly` | ws/src/Universal_Robots_Client_Library/src/rtde/data_package.cpp:463-476 | On success there is one field a name, in the recipe's order, with the type of the type list and all items zero; on failure the name reported is unknown and all names in front of it are known. |
| `DataPackages.DataPackage.SetData` | ws/src/Universal_Robots_Client_Library/include/ur_client_library/rtde/data_package.h:204-227 | The first field of that name is set if its type agrees; otherwise nothing changes and false is returned. |
| `DataPackages.LookupAfterSet` | ws/src/Universal_Robots_Client_Library/include/ur_client_library/rtde/data_package.h:146-227 | Setting succeeds exactly if a field of that name and type is there; then it is what is read, and every other field reads as before. |
| `DataPackages.Serialize` | ws/src/Universal_Robots_Client_Library/include/ur_client_library/comm/package_serializer.h:59-141 | One field is written at its place in the buffer, item by item, big-endian; the rest of the buffer stays. |
| `DataPackages.SerializeHeader` | ws/src/Universal_Robots_Client_Library/include/ur_client_library/rtde/package_header.h:88-95 | Two bytes of total size, in 16-bit arithmetic, and the type byte. |
| `DataPackages.DataPackage.SerializePackage` | ws/src/Universal_Robots_Client_Library/src/rtde/data_package.cpp:510-529 | The buffer begins with the package's bytes, the returned size is their number, and what follows stays. |
| `DataPackages.BinParser.ParseWord` | ws/src/Universal_Robots_Client_Library/include/ur_client_library/comm/bin_parser.h:121-144 | A big-endian word is read and the position moves, or the buffer is too short and nothing moves. |
| `DataPackages.BinParser.ParseValue` | ws/src/Universal_Robots_Client_Library/include/ur_client_library/comm/bin_parser.h:165-249 | A field's items are overwritten one by one, up to where the bytes end. |
| `DataPackages.ItemRoundTrip` | ws/src/Universal_Robots_Client_Library/include/ur_client_library/comm/package_serializer.h:59-104 | Every item comes back from its bytes: booleans, two's complement, words of doubles. |
| `DataPackages.HighByteFirst` | ws/src/Universal_Robots_Client_Library/include/ur_client_library/comm/bin_parser.h:51-80 | The bytes of a word begin with the most significant one. |
| `DataPackages.TwosComplement` | ws/src/Universal_Robots_Client_Library/include/ur_client_library/comm/package_serializer.h:59-66 | A signed item and the word that carries it differ by a multiple of two to the 32nd, and the sign is the top bit. |
| `DataPackages.SizesOfKinds` | ws/src/Universal_Robots_Client_Library/src/rtde/data_package.cpp:514-517 | The bytes per field of each type. |
| `WireFormat.WireByteByByte` | ws/src/Universal_Robots_Client_Library/src/rtde/data_package.cpp:510-529 | Every byte of a serialized package: size divided by 256 and modulo 256, type 85, recipe id; then byte b of item j of field k, at the bytes of the fields and items in front, is that byte of the item's two's complement counted from the highest. |
| `WireFormat.ReadByteByByte` | ws/src/Universal_Robots_Client_Library/src/rtde/data_package.cpp:478-489 | If reading succeeds, item j of field k is read from just those bytes; names and types stay. |
| `WireFormat.FromWordExactly` | ws/src/Universal_Robots_Client_Library/include/ur_client_library/comm/bin_parser.h:121-165 | Any word is read as an item in range that is congruent to it, and as a true boolean unless it is zero. |
| `DataPackages.DataPackage.ParseWith` | ws/src/Universal_Robots_Client_Library/src/rtde/data_package.cpp:478-489 | The recipe id (in protocol version 2) and the fields are read in order; on a short buffer what was read is kept and the parser throws. |
| `DataPackages.RTDEParser.GetPackageTypeFromHeader` | ws/src/Universal_Robots_Client_Library/src/rtde/rtde_parser.cpp:159-171 | The type is returned if the header is there and its size field, which wraps below three, fits the buffer. |
| `DataPackages.RTDEParser.Parse` | ws/src/Universal_Robots_Client_Library/src/rtde/rtde_parser.cpp:90-157 | A data package is parsed into the given one, or a new one of the parser's recipe; accepted, rejected, thrown or of another type, as `Judged` says. |
| `DataPackages.AcceptedExactly` | ws/src/Universal_Robots_Client_Library/src/rtde/rtde_parser.cpp:90-171 | For every byte string: it is accepted as a data package if and only if it has exactly the header's, the id's and the fields' length, type byte 85, and a size field between 3 and that length. |
| `WireFormat.JudgedExactly` | ws/src/Universal_Robots_Client_Library/src/rtde/rtde_parser.cpp:90-171 | Each way in which parsing ends, by header and length: accepted, thrown for too few bytes, rejected for a bad header or bytes left over, or another type. |
| `DataPackages.SizeFieldIsSize` | ws/src/Universal_Robots_Client_Library/src/rtde/data_package.cpp:510-529 | The size field is the number of bytes written if and only if that number is below 65536. |
| `DataPackages.PackageRoundTrip` | ws/src/Universal_Robots_Client_Library/src/rtde/data_package.cpp:478-529 | Parsing a serialized package with the same recipe gives back id and values and consumes every byte; it is accepted if and only if the protocol version is 2 (and the size field did not wrap below 3). |
| `RtdeWriter.RTDEWriter.SetInputRecipe` | ws/src/Universal_Robots_Client_Library/src/rtde/rtde_writer.cpp:60-82 | While running it throws; else both buffers are new and zero, buffer 0 stores, and the masks in use are the recipe's names ending in `_mask`; an unknown name leaves the old buffers. |
| `RtdeWriter.RTDEWriter.Init` | ws/src/Universal_Robots_Client_Library/src/rtde/rtde_writer.cpp:84-100 | Both buffers get the recipe id, pending data is forgotten, and the thread starts. |
| `RtdeWriter.RTDEWriter.Send` | ws/src/Universal_Robots_Client_Library/src/rtde/rtde_writer.cpp:151-401 | Any setter: arguments out of range change nothing; else its fields are set in order up to the first that fails, and only full success marks the data and notifies. Which fields and values these are is what `RtdeSetters` proves of each setter. |
| `RtdeWriter.RTDEWriter.SendPackage` | ws/src/Universal_Robots_Client_Library/src/rtde/rtde_writer.cpp:143-149 | The store buffer takes the package's fields but keeps its id, is marked and notified. |
| `RtdeWriter.RTDEWriter.Acquire` | ws/src/Universal_Robots_Client_Library/src/rtde/rtde_writer.cpp:109-124 | Under the lock: swap and clear the flag, sleep, or go round, as the flag and `running_` say. |
| `RtdeWriter.RTDEWriter.ReadField` | ws/src/Universal_Robots_Client_Library/src/rtde/rtde_writer.cpp:117 | Outside the lock one field of the send buffer is read. |
| `RtdeWriter.RTDEWriter.Write` | ws/src/Universal_Robots_Client_Library/src/rtde/rtde_writer.cpp:117-118 | The fields read so far go out with the buffer's id. |
| `RtdeWriter.RTDEWriter.ResetMask` | ws/src/Universal_Robots_Client_Library/src/rtde/rtde_writer.cpp:403-421 | One mask of the send buffer is set to zero of its type. |
| `RtdeWriter.RTDEWriter.SignalStop` | ws/src/Universal_Robots_Client_Library/src/rtde/rtde_writer.cpp:130-136 | The flag is cleared and a sleeping thread notified. |
| `RtdeWriterRuns.AlwaysSound` | ws/src/Universal_Robots_Client_Library/src/rtde/rtde_writer.cpp:84-149 | In every interleaving: a sleeping thread that was not notified has nothing to send and runs (no lost wake-up), and what it has read is a part of the package it sends. |
| `RtdeWriterRuns.SentAreSnapshots` | ws/src/Universal_Robots_Client_Library/src/rtde/rtde_writer.cpp:102-128 | The packages sent are exactly the store buffer's contents at the swaps, whole, each once and in order, although serializing happens outside the lock. |
| `RtdeWriterRuns.BuffersAreRegisters` | ws/src/Universal_Robots_Client_Library/src/rtde/rtde_writer.cpp:102-175 | Every field that is no mask in use holds, in either buffer, what was last stored in that same buffer: two alternating register files. |
| `RtdeWriterRuns.AlwaysClean` | ws/src/Universal_Robots_Client_Library/src/rtde/rtde_writer.cpp:403-421 | A mask in use is zero in the store buffer unless a call, even one that returned false, set it since the previous swap or change of recipe. |
| `RtdeWriterRuns.EverySentPackage` | ws/src/Universal_Robots_Client_Library/src/rtde/rtde_writer.cpp:60-175 | Each package sent, explained: the swap it was taken at, its id, its masks, and its other fields. |
| `RtdeWriterHistory.UsedMasksExactly` | ws/src/Universal_Robots_Client_Library/src/rtde/rtde_writer.cpp:60-82 | After any events the masks in use are exactly the names ending in `_mask` of the recipe given last. |
| `RtdeWriterHistory.RecipeIdExactly` | ws/src/Universal_Robots_Client_Library/src/rtde/rtde_writer.cpp:84-100 | The recipe id, which every package carries, is the one that the thread was last started with. |
| `RtdeWriterHistory.RunningExactly` | ws/src/Universal_Robots_Client_Library/src/rtde/rtde_writer.cpp:84-135 | The writer runs exactly if it was started and not stopped since. |
| `RtdeWriterHistory.NewDataExactly` | ws/src/Universal_Robots_Client_Library/src/rtde/rtde_writer.cpp:96-128 | New data is marked exactly if a package or a successful setter announced some and since then it was neither taken to be sent nor dropped by a new start. |
| `RtdeWriterRuns.NewestIsSentExactly` | ws/src/Universal_Robots_Client_Library/src/rtde/rtde_writer.cpp:102-175 | The n-th package carries what was last stored in a field, in whichever buffer, if and only if an even number of packages was taken since that store, or both buffers hold the same value. |
| `RtdeWriterRuns.NewestIsRegister` | ws/src/Universal_Robots_Client_Library/src/rtde/rtde_writer.cpp:102-175 | What was stored last is the register of the buffer that it was stored in. |
| `RtdeWriterRuns.TurnIsItsSteps` | ws/src/Universal_Robots_Client_Library/src/rtde/rtde_writer.cpp:107-126 | The many small steps of one turn of the thread amount to one: send the store buffer, reset its masks, store in the other. |
| `RtdeWriterRuns.AnnouncedIsSent` | ws/src/Universal_Robots_Client_Library/src/rtde/rtde_writer.cpp:107-126 | Wherever the thread stands, data that was announced is sent once it runs. |
| `RtdeWriterRuns.StoppedEnds` | ws/src/Universal_Robots_Client_Library/src/rtde/rtde_writer.cpp:130-141 | Once stopped, the thread ends, so that joining it returns. |
| `RtdeWriterRuns.SetterSucceedsExactly` | ws/src/Universal_Robots_Client_Library/src/rtde/rtde_writer.cpp:151-401 | A setter returns true, and announces new data, exactly if its arguments are in range and all of its fields are in the store buffer. |
| `RtdeSetters.RefusedExactly` | ws/src/Universal_Robots_Client_Library/src/rtde/rtde_writer.cpp:151-401 | Arguments are refused exactly for pins above 7 (above 1 for tool and analog outputs), bit registers outside 64 to 127, other registers outside 24 to 47, and doubles greater than one or less than zero by their IEEE 754 value, NaN being neither. |
| `RtdeSetters.DigitalOutputIsTold` | ws/src/Universal_Robots_Client_Library/src/rtde/rtde_writer.cpp:177-278 | Switching a digital output sends a package with that pin's bit alone in the mask and the output 255 or 0, and no other field changed. |
| `RtdeSetters.SpeedSliderIsTold` | ws/src/Universal_Robots_Client_Library/src/rtde/rtde_writer.cpp:151-175 | The speed slider sends a package with mask 1 and the fraction, and no other field changed. |
| `RtdeSetters.AnalogOutputIsTold` | ws/src/Universal_Robots_Client_Library/src/rtde/rtde_writer.cpp:280-319 | An analog output sends that pin's bit alone in the mask and the value in both outputs; the type is 0 for a current, the pin's bit for a voltage, and as stored if it is set on the teach pendant; no other field changes. |
| `RtdeSetters.InputRegisterIsTold` | ws/src/Universal_Robots_Client_Library/src/rtde/rtde_writer.cpp:331-389 | An input register of bits, integers or doubles, at every number in range, sends its value in the field named after it, and no other field changed. |
| `RtdeSetters.DecimalIsNumber` | ws/src/Universal_Robots_Client_Library/src/rtde/rtde_writer.cpp:44-51 | The number in that name is in decimal: digits, no leading zero, and the right number. |
| `RtdeSetters.ExternalForceTorqueIsTold` | ws/src/Universal_Robots_Client_Library/src/rtde/rtde_writer.cpp:391-401 | The wrench is sent as given, and no other field changed. |
| `RtdeWriterRuns.OldValueIsSentAgain` | ws/src/Universal_Robots_Client_Library/src/rtde/rtde_writer.cpp:114 | A field set twice and then left alone is sent the third time with its first value. |
| `RtdeWriterRuns.OldRegisterIsSentAgain` | ws/src/Universal_Robots_Client_Library/src/rtde/rtde_writer.cpp:351-369 | A run from construction: register 24 set to 1, then to 2, then register 25 set, and the robot is told 1 again. |
| `BackgroundReader.Reader.constructor` | ws/src/Universal_Robots_Client_Library/src/rtde/rtde_client.cpp:941-953 | Reading starts with two blank packages. |
| `BackgroundReader.Reader.TryGet` | ws/src/Universal_Robots_Client_Library/src/rtde/rtde_client.cpp:972-990 | The spare buffer takes a data package, another package, or stays half overwritten. |
| `BackgroundReader.Reader.Swap` | ws/src/Universal_Robots_Client_Library/src/rtde/rtde_client.cpp:978-981 | Under the locks the two buffers change places. |
| `BackgroundReader.Reader.EndWait` | ws/src/Universal_Robots_Client_Library/src/rtde/rtde_client.cpp:776-782 | A wait that ends in time copies if there is new data; one that ends late returns false. |
| `BackgroundReader.Reader.CopyPackage` | ws/src/Universal_Robots_Client_Library/src/rtde/rtde_client.cpp:770-771 | The consumer gets buffer 0: a whole data package, not older than any that was delivered. |
| `BackgroundReader.AlwaysInvariant` | ws/src/Universal_Robots_Client_Library/src/rtde/rtde_client.cpp:754-789 | In every interleaving of the reading thread and any number of consumers: buffer 0 is a whole data package, only the lock's holder copies, packages are delivered in the order in which they arrived, and a lowered flag means that the newest swapped in was delivered (unless the thread is between swap and flag, or has ended). |
| `BackgroundReader.PromptDelivery` | ws/src/Universal_Robots_Client_Library/src/rtde/rtde_client.cpp:768-773 | A call that finds the flag raised and is not disturbed delivers the newest package and lowers the flag. |
| `BackgroundReader.SeenIsDelivered` | ws/src/Universal_Robots_Client_Library/src/rtde/rtde_client.cpp:768-773 | In every interleaving, a call that sees the flag raised never waits, and what it has copied is, until it ends, the newest package swapped in and no older than the one it saw. |
| `BackgroundReader.TimedOutWithNewExactly` | ws/src/Universal_Robots_Client_Library/src/rtde/rtde_client.cpp:768-782 | A call that times out saw the flag lowered; it leaves it raised exactly if the reading thread raised it after that look and nobody lowered it since. |
| `BackgroundReader.TimesOutDespiteNewData` | ws/src/Universal_Robots_Client_Library/src/rtde/rtde_client.cpp:754-789 | After any run, a call about to look at the flag can time out with new data there, in some interleaving, if and only if the flag is lowered and the reading thread has a package under way or goes on reading. |
| `RtdeClient.RTDEClient.constructor` | ws/src/Universal_Robots_Client_Library/src/rtde/rtde_client.cpp:66-84 | All three recipes are the given one, with a timestamp added if there is none. |
| `RtdeClient.RTDEClient.NegotiateProtocolVersion` | ws/src/Universal_Robots_Client_Library/src/rtde/rtde_client.cpp:189-242 | The loops compute the negotiated version, and leave the parser at it, or at 1 if there is none. |
| `RtdeClient.NegotiatedExactly` | ws/src/Universal_Robots_Client_Library/src/rtde/rtde_client.cpp:189-242 | The result is v if and only if requests for all versions down to v go out, the robot accepts v after at most four other packages, and refuses, or ignores five times, every higher one. |
| `RtdeClient.NegotiatedAtMost` | ws/src/Universal_Robots_Client_Library/src/rtde/rtde_client.cpp:191-242 | No version above the first one asked for is returned. |
| `RtdeClient.RTDEClient.ResetOutputRecipe` | ws/src/Universal_Robots_Client_Library/src/rtde/rtde_client.cpp:325-334 | Client, parser and preallocated package get the new recipe, the parser version 1, and the connection is closed. |
| `RtdeClient.RTDEClient.SetupOutputs` | ws/src/Universal_Robots_Client_Library/src/rtde/rtde_client.cpp:336-445 | Confirmed, not confirmed, reduced, unavailable (throws) or the failed assertion, and what each leaves of the client; which of these and with what recipe is `OutputsExactly` and `ReducedExactly`. |
| `RtdeClient.OutputsExactly` | ws/src/Universal_Robots_Client_Library/src/rtde/rtde_client.cpp:336-445 | The first answer with types among five decides: confirmed if it has a type for every variable, reduced or unavailable if one is NOT_FOUND, depending on the option, and a failed assertion if it is for another number of variables. |
| `RtdeClient.ReducedExactly` | ws/src/Universal_Robots_Client_Library/src/rtde/rtde_client.cpp:383-419 | The reduced recipe is exactly the variables at the indices whose type is not NOT_FOUND, in their order. |
| `RtdeClient.AvailableIsSubsequence` | ws/src/Universal_Robots_Client_Library/src/rtde/rtde_client.cpp:380-396 | The available variables are a subsequence of the recipe, shorter exactly if a type is NOT_FOUND. |
| `RtdeClient.AvailableExactly` | ws/src/Universal_Robots_Client_Library/src/rtde/rtde_client.cpp:383-397 | The k-th variable that stays is the recipe at the k-th index whose type is not NOT_FOUND: an increasing sequence of indices with just these. |
| `RtdeClient.RTDEClient.SetupCommunication` | ws/src/Universal_Robots_Client_Library/src/rtde/rtde_client.cpp:140-187 | One attempt: connecting, negotiating, the recipes, and how it ends. |
| `RtdeClient.RTDEClient.Init` | ws/src/Universal_Robots_Client_Library/src/rtde/rtde_client.cpp:97-138 | Throws for no attempts, returns true for a client that is not uninitialized, and else makes its attempts. |
| `RtdeClient.SetupKeepsRecipes` | ws/src/Universal_Robots_Client_Library/src/rtde/rtde_client.cpp:140-187 | An attempt keeps the three recipes equal and a subsequence of the first; it changes them only to shorter ones, only if unavailable outputs are ignored, and never when it succeeds; success means a version that the robot agreed to, in client and parser. |
| `RtdeClient.RecipeChangesExactly` | ws/src/Universal_Robots_Client_Library/src/rtde/rtde_client.cpp:140-187 | When an attempt changes the recipe, unavailable outputs are ignored and the new recipe is exactly the variables that the robot's answer has a type for, in their order. |
| `RtdeClient.SetupEndsExactly` | ws/src/Universal_Robots_Client_Library/src/rtde/rtde_client.cpp:140-187 | An attempt succeeds exactly if every part of it does, and throws or crashes exactly in the parts named. |
| `RtdeClient.RecipesThroughAttempts` | ws/src/Universal_Robots_Client_Library/src/rtde/rtde_client.cpp:97-138 | Through any number of attempts, with as many changes of the recipe as variables dropped at most. |
| `RtdeClient.InitExactly` | ws/src/Universal_Robots_Client_Library/src/rtde/rtde_client.cpp:97-138 | At most the given number of attempts; true exactly if the last one succeeds and each one before failed without an exception and without being refused on a connection that stays up. |
| `RtdeClient.LeftConnectedExactly` | ws/src/Universal_Robots_Client_Library/src/rtde/rtde_client.cpp:148-152 | After a failed attempt the socket is still connected exactly if the negotiation failed with it connected, for then disconnect does not close it. |
| `RtdeClient.NoRetryOnceRefused` | ws/src/Universal_Robots_Client_Library/src/comm/tcp_socket.cpp:92-93 | And then the next attempt throws, since connecting a connected socket fails: there is no retry. |
| `RtdeClient.SecondInitExactly` | ws/src/Universal_Robots_Client_Library/src/rtde/rtde_client.cpp:97-138 | After an init that failed, whatever happened in its attempts, a second one returns true without any attempt and with the client as it was, if and only if the last attempt of the first connected, agreed on a version, and then threw or failed an assertion. |
| `RtdeClient.ThrowLeavesInitializing` | ws/src/Universal_Robots_Client_Library/src/rtde/rtde_client.cpp:105-108 | An example: a frequency out of range throws, and the second init returns true at once. |
| `TcpServer.TCPServer.HandleDisconnect` | ws/src/Universal_Robots_Client_Library/src/comm/tcp_server.cpp:328-362 | It leaves list and set, the maximum is found anew, and the callback is made while running. |
| `TcpServer.TCPServer.Spin` | ws/src/Universal_Robots_Client_Library/src/comm/tcp_server.cpp:269-326 | One turn: connect, then read every active client, then drop those at their end. |
| `TcpServer.ServerConsistent` | ws/src/Universal_Robots_Client_Library/src/comm/tcp_server.cpp:211-362 | Through any turns: the set is the listening descriptor and the distinct clients, the maximum is theirs, and the limit is kept. |
| `TcpServer.StepKeepsConsistent` | ws/src/Universal_Robots_Client_Library/src/comm/tcp_server.cpp:269-326 | One turn keeps that; the clients afterwards are those before and the accepted one, without those read to their end. |
| `TcpServer.TurnReports` | ws/src/Universal_Robots_Client_Library/src/comm/tcp_server.cpp:269-403 | The callbacks of a turn: a connection exactly for the client it takes, a message exactly from each client that was read with data, a disconnection exactly for each that was read to its end. |
| `TcpServer.ConnectedExactly` | ws/src/Universal_Robots_Client_Library/src/comm/tcp_server.cpp:211-267 | A connecting client is there after the turn if and only if accept was due and the descriptor is valid, below FD_SETSIZE, and within the limit as the turn began. |
| `ReverseInterface.ReverseInterfaceFollows` | ws/src/Universal_Robots_Client_Library/src/control/reverse_interface.cpp:43-61 | Through any turns: its client is the server's only one or none, and it reports false, true, false, ... with true exactly while there is one. |
| `ReverseInterface.ReverseInterface.Turn` | ws/src/Universal_Robots_Client_Library/src/control/reverse_interface.cpp:225-255 | One turn of the server with the callbacks it makes, handled in order: the client descriptor is again the server's only client or invalid, and the reported states alternate. |
| `ReverseInterface.TakenExactly` | ws/src/Universal_Robots_Client_Library/src/control/reverse_interface.cpp:225-241 | A connecting robot is the interface's client after the turn if and only if accept was due, the descriptor fits, and there was no client when the turn began. |
| `ReverseInterface.QuickReconnectIsTurnedAway` | ws/src/Universal_Robots_Client_Library/src/comm/tcp_server.cpp:291-325 | A robot that reconnects in the turn in which its old connection ends is turned away. |
| `ForceMode.ForceModeController.Conclude` | ws/src/Universal_Robots_ROS2_Driver/ur_controllers/src/force_mode_controller.cpp:391-400 | One reply is given; it is success for setForceMode only if, after update marked this request, the hardware did one thing: start with exactly its parameters, successfully. |
| `ForceMode.ForceModeController.Hardware` | ws/src/Universal_Robots_ROS2_Driver/ur_robot_driver/src/hardware_interface.cpp:916-922 | If the request was written and nothing has happened to it, the hardware acts on it or on what was left before it, and its result is what update will read. |
| `ForceMode.SuccessIsFresh` | ws/src/Universal_Robots_ROS2_Driver/ur_controllers/src/force_mode_controller.cpp:173-400 | In every interleaving, setForceMode succeeds only if update wrote all of this request's parameters and the first thing the hardware did after its mark was to start with exactly these, successfully; an earlier result is never seen. disableForceMode succeeds only if the first thing after its mark succeeded. |
| `ForceMode.StepKeepsFresh` | ws/src/Universal_Robots_ROS2_Driver/ur_controllers/src/force_mode_controller.cpp:173-421 | What every step of either thread or the hardware keeps for that. |
| `ForceMode.AnsweredOnce` | ws/src/Universal_Robots_ROS2_Driver/ur_controllers/src/force_mode_controller.cpp:366-420 | Requests are answered in their order, each exactly once. |
| `ForceMode.RepliesComeFrom` | ws/src/Universal_Robots_ROS2_Driver/ur_controllers/src/force_mode_controller.cpp:366-420 | Every reply, in every interleaving: success exactly if the result read last was one, or a failure because the box was taken. |
| `ForceMode.SuccessExactly` | ws/src/Universal_Robots_ROS2_Driver/ur_controllers/src/force_mode_controller.cpp:173-421 | In every interleaving, the reply is success if and only if the hardware has acted successfully on what was marked and update has read its result since, by the last read before the reply. What it did was to start this request's parameters; for disableForceMode it was to stop if and only if nothing was left to start when update marked it, and else to start what was left. |
| `ForceMode.ServedIsAnswered` | ws/src/Universal_Robots_ROS2_Driver/ur_controllers/src/force_mode_controller.cpp:382-391 | If the waiting thread's look that lets it go on finds the request already taken down, the reply is the hardware's outcome, unless update fails to read the result between look and reply. |
| `ForceMode.OvertakenFails` | ws/src/Universal_Robots_ROS2_Driver/ur_controllers/src/force_mode_controller.cpp:382-391 | Between taking the request down and the next successful read of the result, the reply can only be a failure, whatever the hardware does: so it is when the look came first and no further update before the reply. |
| `ForceMode.FailureThoughStarted` | ws/src/Universal_Robots_ROS2_Driver/ur_controllers/src/force_mode_controller.cpp:382-391 | A run, from any activation, in which setForceMode reports failure and the hardware then starts as requested. |
| `ForceMode.DisabledThoughStarted` | ws/src/Universal_Robots_ROS2_Driver/ur_controllers/src/force_mode_controller.cpp:403-421 | A run, from any activation, in which disableForceMode reports success although the hardware has just started force mode. |
| `InstructionExecutor.TrueIsSuccess` | ws/src/Universal_Robots_Client_Library/src/ur/instruction_executor.cpp:58-99 | In every interleaving: true is returned only when the result is read, exactly one event has taken effect since the running flag was set, and it was a success; and then it is returned. Every other way out returns false. |
| `InstructionExecutor.ResultStays` | ws/src/Universal_Robots_Client_Library/src/ur/instruction_executor.cpp:36-57 | Later events and cancels do not change that result. |
| `InstructionExecutor.InstructionExecutor.ReadResult` | ws/src/Universal_Robots_Client_Library/src/ur/instruction_executor.cpp:91-98 | What is returned is whether the one event that ended this motion was a success. |
| `InstructionExecutor.TakesEffectExactly` | ws/src/Universal_Robots_Client_Library/src/ur/instruction_executor.cpp:36-57 | A result or a disconnect takes effect, once and with its own result, if and only if the running flag is set when it arrives, whatever the other threads do until its callback is through. |
| `InstructionExecutor.AlwaysAnswered` | ws/src/Universal_Robots_Client_Library/src/ur/instruction_executor.cpp:58-99 | A motion is answered with the event that was in hand when it set the running flag, or else with the first one to arrive after that. |
| `InstructionExecutor.OwnResultExactly` | ws/src/Universal_Robots_Client_Library/src/ur/instruction_executor.cpp:83-98 | Where the robot reports one result for each motion it was told to start, in that order: a motion that was not ended by a disconnect is answered with its own result if and only if, when it set the flag, its own result was in hand, or none was and exactly those of the motions before it had been delivered. That the flag was clear is not enough. |
| `InstructionExecutor.EndsExactly` | ws/src/Universal_Robots_Client_Library/src/ur/instruction_executor.cpp:86-98 | executeMotion returns within one turn of the callback and of its own loop if the loop is released (the flag cleared, an event in hand, or a cancel); and if it is not, never, as long as no event and no cancel comes. |
| `InstructionExecutor.ReleasedExactly` | ws/src/Universal_Robots_Client_Library/src/ur/instruction_executor.cpp:83-86 | What releases it: an event noticed before the cancel flag was cleared, or any event or cancel since. A result or a cancel that came before is lost. |
| `InstructionExecutor.EarlierSuccessIsTaken` | ws/src/Universal_Robots_Client_Library/src/ur/instruction_executor.cpp:83-86 | A run: motion 1 is cancelled and returns false, motion 2 returns true on the success of motion 1, and motion 3, which finds the flag cleared, on the success of motion 2. |
| `InstructionExecutor.EarlyResultIsDropped` | ws/src/Universal_Robots_Client_Library/src/ur/instruction_executor.cpp:39-46 | A run: the motion's own result comes before the flag is set, and its loop is entered and not released. |
| `VisionVote.MatchCandidatesToReference` | ws/src/vzlet_control/scripts/pipeline_vision.py:276-302 | The loops, with their running minimum and pop, give each reference the nearest candidate left, or nothing at all. |
| `VisionVote.NearestIsNearest` | ws/src/vzlet_control/scripts/pipeline_vision.py:287-295 | The one taken is nearest, and the first of those. |
| `VisionVote.MatchIsPermutation` | ws/src/vzlet_control/scripts/pipeline_vision.py:276-302 | A match is a permutation of the detections, each within the limit of its reference. |
| `VisionVote.MatchTakesNearest` | ws/src/vzlet_control/scripts/pipeline_vision.py:276-302 | A match: one reference after the other takes a detection that is nearest of those still left, and near enough; there is no match exactly if some reference finds none near enough among what those before left. |
| `VisionVote.SquaresCompare` | ws/src/vzlet_control/scripts/pipeline_vision.py:287-299 | Comparing squares decides as comparing the distances themselves does. |
| `NearestMatching.ApartFindsExactly` | ws/src/vzlet_control/scripts/pipeline_vision.py:276-302 | If no two references compete for a detection, a match is found if and only if the detections can be handed out to the references within the limit. |
| `NearestMatching.NearestFirstIsCompleteExactly` | ws/src/vzlet_control/scripts/pipeline_vision.py:276-302 | For any references in their order: taking the nearest first finds every match that exists, whatever is detected, if and only if no two of them compete, that is they have the same centre or lie more than twice the limit apart. |
| `NearestMatching.CompetingMiss` | ws/src/vzlet_control/scripts/pipeline_vision.py:283-300 | If two compete, there are as many detections that match the references, and for which the code finds no match: one out of reach of all later references, and a nearer one. |
| `VisionVote.GreedyMissesMatch` | ws/src/vzlet_control/scripts/pipeline_vision.py:283-300 | Two references for which a match exists and none is found. |
| `VisionVote.AverageCandidateVotes` | ws/src/vzlet_control/scripts/pipeline_vision.py:304-325 | Of each candidate returned, and for each of its five numbers, the number of frames times it is the sum of that number over the frames; the rest is the first frame's, and it is not selected. |
| `VisionVote.MergedIsAverage` | ws/src/vzlet_control/scripts/pipeline_vision.py:311-323 | The same of the averaged candidate, for every list of frames. |
| `VisionVote.MergedIsWithin` | ws/src/vzlet_control/scripts/pipeline_vision.py:315-320 | If every sample is within the limit, so is the average centre, in Euclidean distance and for any number of frames. |
| `VisionVote.MergedBetween` | ws/src/vzlet_control/scripts/pipeline_vision.py:315-321 | Each of the five averages lies between any bounds of that number in the samples, and the rest is the first sample's. |
| `VisionVote.GetStableCandidates` | ws/src/vzlet_control/scripts/pipeline_vision.py:478-668 | A vote is accepted if and only if every frame detects something and every later one matches the first. |
| `VisionVote.AcceptedVote` | ws/src/vzlet_control/scripts/pipeline_vision.py:600-668 | Of an accepted vote every list is a permutation of its frame's detections, and every averaged centre lies within the limit of the reference (a vote of one frame, which tests no distance, aside if the limit is negative). |
| `PrepareScript.StripCommentsAndWhitespace` | ws/src/Universal_Robots_Client_Library/src/primary/primary_client.cpp:376-398 | The loop keeps the lines that `KeptExactly` names. |
| `PrepareScript.KeptExactly` | ws/src/Universal_Robots_Client_Library/src/primary/primary_client.cpp:376-398 | Kept are exactly the lines with a character that is neither white space nor `#` and has only white space in front, in their order: none is lost, whatever stands before it. |
| `PrepareScript.PrepareScript` | ws/src/Universal_Robots_Client_Library/src/primary/primary_client.cpp:413-502 | The method computes the prepared script or its error. |
| `PrepareScript.PreparedIsWellFormed` | ws/src/Universal_Robots_Client_Library/src/primary/primary_client.cpp:413-502 | What is prepared has a valid name of at most 31 characters, which is exactly the text between the keyword and the first parenthesis of line one, also after a long one was cut, and ends with `end`. |
| `PrepareScript.LinesAreKept` | ws/src/Universal_Robots_Client_Library/src/primary/primary_client.cpp:416-495 | Splitting the prepared code at newlines gives all lines of the script that hold code, in their order: indented between a definition and an end, or as they were but for the cut name. The name is the first 31 characters of that in the definition, else of the one given, else of the generated one. |
| `PrepareScript.RefusedExactly` | ws/src/Universal_Robots_Client_Library/src/primary/primary_client.cpp:421-487 | Each of the four syntax errors, exactly when it is thrown: no line with code, a definition without parenthesis, a name that is no identifier, a definition whose last line does not begin with `end`. |
| `PrepareScript.RenamedLine` | ws/src/Universal_Robots_Client_Library/src/primary/primary_client.cpp:470-474 | Replacing the first occurrence of a long name replaces the name itself, whenever the cut name is valid. |
| `PrepareScript.PreparingIsIdempotent` | ws/src/Universal_Robots_Client_Library/src/primary/primary_client.cpp:413-502 | Preparing a prepared script again, under any name, gives the same code, name and type. |
| `ScriptMonitor.PrimaryClient.ErrorMessageCallback` | ws/src/Universal_Robots_Client_Library/src/primary/primary_client.cpp:96-100 | The code joins the queue; none is lost. |
| `ScriptMonitor.PrimaryClient.CheckException` | ws/src/Universal_Robots_Client_Library/src/primary/primary_client.cpp:218-256 | An exception ends the watch with false. |
| `ScriptMonitor.PrimaryClient.CheckErrors` | ws/src/Universal_Robots_Client_Library/src/primary/primary_client.cpp:258-308 | The queue is drained; a fatal code ends the watch with false, and the program is told to stop unless the connection is read-only. |
| `ScriptMonitor.PrimaryClient.DrainMessages` | ws/src/Universal_Robots_Client_Library/src/primary/primary_client.cpp:310-345 | The messages are drained, and the loop's variables are those of the turns so far and these messages; the clock is read only at the first report of the stop. |
| `ScriptMonitor.PrimaryClient.Decide` | ws/src/Universal_Robots_Client_Library/src/primary/primary_client.cpp:351-370 | The turn ends: success, timeout, or another turn. |
| `ScriptMonitor.WatchingExactly` | ws/src/Universal_Robots_Client_Library/src/primary/primary_client.cpp:216-373 | The loop goes on exactly while no turn sees an exception or a fatal code, or outlasts the grace period or the start timeout; and what its variables then mean. |
| `ScriptMonitor.ReturnsTrueExactly` | ws/src/Universal_Robots_Client_Library/src/primary/primary_client.cpp:216-373 | It returns true at the end of a turn exactly if all before went on, this one is harmless, the script's own stop was reported, and 100 ms have passed since. |
| `ScriptMonitor.NoFatalArrival` | ws/src/Universal_Robots_Client_Library/src/primary/primary_client.cpp:204-373 | On success no error code that had arrived by the last draining was of level violation or fault or had code 210, and none was a warning if those count. |
| `ScriptMonitor.StopsExactly` | ws/src/Universal_Robots_Client_Library/src/primary/primary_client.cpp:259-300 | The program is told to stop exactly for a violation or fault that does not come with code 210. |

## Left out

- ScriptVariables.ReplaceVariables: only for values whose braces can be weighed (`Tame`), which is more than the documented use; where a value leads back to itself the loop need not end, as SelfReferenceLoops shows.
- UrCalibration.Calibration.CorrectAxis: only where the next joint axis is a line that crosses the plane in one point (next `d` and `cos alpha` not zero); elsewhere the source divides by zero.
- RtdeWriterRuns.EverySentPackage: the part about masks is for recipes whose fields are all known; an unknown name throws out of `setInputRecipe` with the masks changed and the buffers not.
- RtdeWriter.RTDEWriter.constructor: leaves the recipe, which the source's constructor sets next, to a call of `SetInputRecipe`, since that can fail.
- RtdeWriter.RTDEWriter.SetInputRecipe: changing the recipe, like `init`, between a stop signal and the end of the thread is not modelled; it would replace the buffers under the thread.
- BackgroundReader.AlwaysInvariant: one session of background reading; restarting it, and reconnecting, replaces the buffers under consumers without their lock.
- RtdeClient.RTDEClient.SetupCommunication: the version query, the start and pause of the data stream and the input recipe are given as outcomes; `reconnect` is not part of this model.
- ForceMode.SuccessIsFresh: one request at a time, with its arguments already checked and transformed; activation and deactivation of the controller during a request are not modelled.
- ScriptMonitor.ReturnsTrueExactly: what comes before the loop (robot and safety mode, sending, secondary programs) is not modelled.
- VisionVote.GetStableCandidates: which candidate is marked as selected for the debug image is not modelled; the vote clears the mark.
- The types of fields are a parameter (the type list); that masks have their types in it is an assumption of the lemmas about masks.
- Regular expressions of block lines, and the evaluation of conditions: a classifier of lines and an evaluator of conditions are parameters; the placeholder pattern is matched directly.
- Text of numbers put in for variables: the values are given as text.
- Floating-point rounding: geometry and averages are over the reals, and distances are compared by their squares.
- `replaceIncludes`, `waitFor`, `parseBoolean`, robot series and types, and the comparison of versions.
- Sockets, select, sleeping and clocks: they are events and parameters of the models.
- Parsers and packages other than data packages, dashboard clients, ROS services, planning, cameras and grippers.
- What `cancelMotion` waits for and returns; that a cancel before the running flag is set is forgotten.
- Shutting the server down while a turn of its loop is in progress.
