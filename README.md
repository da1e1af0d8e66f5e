# WindowsVolumeControl in Dafny

This project models the command-translation layer of `WindowsVolumeControl`. That Java class controls the Windows system volume by running the bundled NirCmd utility as a child process. The model covers:

- **Readiness gate.** `checkNirCmdReady` checks the path of the extracted `nircmd.exe`, which the static initialiser writes once.
- **Validation.** A volume must be in 0..100. A step must be non-negative.
- **Scaling.** A percentage becomes NirCmd's 0..65535 unit.
- **Command templates.** The operations send `setsysvolume <v>`, `changesysvolume <v>`, `changesysvolume <-v>` and `mutesysvolume 1|0|2`.
- **Command list.** `executeNirCmd` builds `[path, command, args...]` and interprets what the launch reports.
- **Copy loop.** `extractNirCmd` copies the resource into the temporary file.

Modules, one per component:

- `Java`: the Java semantics the code relies on. This covers exceptions, 32-bit `int` narrowing and negation, and `String.valueOf(int)`. It also has a decimal reader, which is the inverse of `String.valueOf`.
- `Translator`: the pure part of each public operation. This is validation, rounding and the NirCmd command word and argument.
- `Executor`: the specification `Execute` of `executeNirCmd` and the loop that builds the command list. The operating system's answer to a launch is a parameter `ProcessRun`:
  - `StartFailed`: `start` threw an IOException.
  - `Interrupted`: `waitFor` was interrupted.
  - `Exited(code)`: the process ended with that exit code.
- `Extractor`: the resource stream and temporary file as classes, and `ExtractNirCmd` with its 8192-byte buffer loop.
- `Facade`: the class `WindowsVolumeControl`.
  - It holds the class's path as the field `extractedNirCmdPath`.
  - It has the six public operations as methods. No method has a `modifies` clause, so no call can change that field.
  - It has the static initialiser, the specification `Perform` of one public call, and the lemmas about it.

Each public method is proved equal to `Perform`. The properties are lemmas about `Perform`.

An `Outcome` records four things about one call:
- `result`: whether it returned normally or which exception it threw.
- `attempted`: which command list, if any, it handed to `ProcessBuilder`.
- `destroyed`: whether the process was destroyed.
- `exitWarning`: which non-zero exit code it logged as a warning.

What the code sends and reports, and so what the model states:
- Every command is the executable path, the command word and one value. No device argument is passed.
- An increase sends the bare digits of the change, with no `+` sign.
- A non-zero exit code is only logged as a warning. The call still returns normally.
- The class has no operation that reads the current volume or mute state.

When the static initialiser fails, the class never becomes usable. A `null` path is therefore never observable in the code. The model still lets the gate be exercised by constructing the class with `None`.

## Model

| member | source | states |
|---|---|---|
| `Java.Narrow` | src/main/java/com/github/ArdaKoksall/WindowsVolumeControl.java:107 | the `(int)` cast of a `long` gives the unique `int` congruent to it modulo 2^32, and leaves values already in `int` range unchanged |
| `Java.Negate` | src/main/java/com/github/ArdaKoksall/WindowsVolumeControl.java:146 | Java unary minus is exact negation except on `Integer.MIN_VALUE`, which it maps to itself |
| `Java.Digits` | src/main/java/com/github/ArdaKoksall/WindowsVolumeControl.java:108 | the decimal digits of a natural number are non-empty, all digits, and start with `0` only for zero, which is exactly "0" |
| `Java.ValueOf` | src/main/java/com/github/ArdaKoksall/WindowsVolumeControl.java:108 | `String.valueOf(int)` starts with `-` exactly for negatives, is all digits (no `+`) otherwise, and after the `-` holds the digits of the magnitude |
| `Java.ReadDecimalValueOf` | src/main/java/com/github/ArdaKoksall/WindowsVolumeControl.java:108 | reading back the text `String.valueOf` produced gives the original number (round trip) |
| `Java.ValueOfInjective` | src/main/java/com/github/ArdaKoksall/WindowsVolumeControl.java:108 | two numbers with the same text are equal, so an argument string determines the value NirCmd receives |
| `Java.ValueOfNegated` | src/main/java/com/github/ArdaKoksall/WindowsVolumeControl.java:146 | the text of `-v` is `-` followed by the text of `v`, except that zero is "0" and never "-0" |
| `Translator.RoundedUnits` | src/main/java/com/github/ArdaKoksall/WindowsVolumeControl.java:31 | the scaled value is the integer nearest to p * 65535 / 100, with halves rounded up (100r - 50 <= 65535p < 100r + 50) |
| `Translator.RoundedUnitsIsMathRound` | src/main/java/com/github/ArdaKoksall/WindowsVolumeControl.java:107 | the integer formula equals `Math.round`, that is floor(x + 1/2), applied to the exact real (p / 100) * 65535 |
| `Translator.ScaledValue` | src/main/java/com/github/ArdaKoksall/WindowsVolumeControl.java:107 | for a percentage in 0..100 the narrowed value equals the rounded value and lies in 0..65535 |
| `Translator.ScaledValueEnds` | src/main/java/com/github/ArdaKoksall/WindowsVolumeControl.java:107 | 0 percent maps to 0 and 100 percent to 65535 |
| `Translator.RoundedUnitsMonotone` | src/main/java/com/github/ArdaKoksall/WindowsVolumeControl.java:107 | scaling is monotone non-decreasing |
| `Translator.StepIsNotWrapped` | src/main/java/com/github/ArdaKoksall/WindowsVolumeControl.java:126 | for steps 0..3276849 the `(int)` narrowing leaves the rounded step value unchanged and non-negative |
| `Translator.IncreaseStepWraps` | src/main/java/com/github/ArdaKoksall/WindowsVolumeControl.java:126-127 | as written, a step of 3276850 rounds to 2^31 and narrows to `Integer.MIN_VALUE`; the increase sends a negative change, and the decrease sends the same text |
| `Translator.StepValue` | src/main/java/com/github/ArdaKoksall/WindowsVolumeControl.java:126 | corrected step value: never negative; equals the rounded value when it fits in `int`, and `Integer.MAX_VALUE` otherwise |
| `Translator.StepValueAgreesBelowWrap` | src/main/java/com/github/ArdaKoksall/WindowsVolumeControl.java:126 | the corrected step value and the code as written agree on every step up to 3276849 |
| `Translator.StepValueMonotone` | src/main/java/com/github/ArdaKoksall/WindowsVolumeControl.java:126 | with the corrected step value (not the code as written), a larger step never sends a smaller change |
| `Translator.Translate` | src/main/java/com/github/ArdaKoksall/WindowsVolumeControl.java:102-187 | as written, with the narrowed step value: an operation is translated exactly when its argument is valid; otherwise it fails with IllegalArgumentException; each command has one argument |
| `Translator.TranslateCorrected` | src/main/java/com/github/ArdaKoksall/WindowsVolumeControl.java:121-148 | the translation with the corrected step value: it accepts and rejects exactly what `Translate` does, with the same exceptions, and differs from it only on the two step operations |
| `Translator.TranslateCorrectedAgrees` | src/main/java/com/github/ArdaKoksall/WindowsVolumeControl.java:121-148 | the corrected translation equals the code as written for every operation whose step is at most 3276849 |
| `Translator.StepArgumentsWrap` | src/main/java/com/github/ArdaKoksall/WindowsVolumeControl.java:126-146 | as written, both `increaseVolume(3276850)` and `decreaseVolume(3276850)` send `changesysvolume -2147483648` |
| `Translator.SetVolumeArgument` | src/main/java/com/github/ArdaKoksall/WindowsVolumeControl.java:104-108 | a valid percentage sends `setsysvolume` with the unsigned text of its rounded value, which lies in 0..65535 and reads back exactly |
| `Translator.DecreaseNegatesIncrease` | src/main/java/com/github/ArdaKoksall/WindowsVolumeControl.java:126-146 | as written, for the same step up to 3276849, the increase text is unsigned digits, and the decrease text is its minus-signed negation ("0" for a zero change); both read back as +v and -v, v the rounded step |
| `Translator.CorrectedDecreaseNegatesIncrease` | src/main/java/com/github/ArdaKoksall/WindowsVolumeControl.java:126-146 | with the corrected step value the same negation holds for every non-negative step |
| `Translator.DecreaseByZero` | src/main/java/com/github/ArdaKoksall/WindowsVolumeControl.java:145-146 | decreasing by 0 sends `changesysvolume 0` |
| `Translator.MuteArguments` | src/main/java/com/github/ArdaKoksall/WindowsVolumeControl.java:157-187 | mute, unmute and toggle send `mutesysvolume` with "1", "0" and "2" |
| `Executor.Execute` | src/main/java/com/github/ArdaKoksall/WindowsVolumeControl.java:207-246 | a command list of length 2 + args is attempted exactly when the path is set; only a failed start or wait throws, never a non-zero exit code; a non-zero exit code is logged; the process is destroyed exactly when it was started |
| `Executor.BuildCommandList` | src/main/java/com/github/ArdaKoksall/WindowsVolumeControl.java:212-215 | the list is the path, then the command, then the arguments in order, so its length is 2 + the number of arguments |
| `Extractor.ResourceStream.Read` | src/main/java/com/github/ArdaKoksall/WindowsVolumeControl.java:78 | a read returns -1 exactly at end of stream; otherwise it returns between 1 and the buffer's length bytes, the next ones of the resource |
| `Extractor.ResourceStream.Close` | src/main/java/com/github/ArdaKoksall/WindowsVolumeControl.java:82-88 | after closing, the stream is closed |
| `Extractor.TempFile.Write` | src/main/java/com/github/ArdaKoksall/WindowsVolumeControl.java:79 | writing appends exactly the given slice of the buffer to the file |
| `Extractor.ExtractNirCmd` | src/main/java/com/github/ArdaKoksall/WindowsVolumeControl.java:65-91 | a missing resource throws IOException; a temp-file failure propagates with the stream left open; a failure to open the output stream propagates after the stream is closed, with the file still empty; otherwise, however the reads are chunked, the file holds exactly the remaining resource bytes in order, the stream is closed and the file's path is returned |
| `Facade.Perform` | src/main/java/com/github/ArdaKoksall/WindowsVolumeControl.java:102-187 | without a path every call throws IllegalStateException; a command is attempted exactly when the path is set and the argument is valid |
| `Facade.WindowsVolumeControl.constructor` | src/main/java/com/github/ArdaKoksall/WindowsVolumeControl.java:32-36 | the class starts with the path the static initialiser left |
| `Facade.WindowsVolumeControl.CheckNirCmdReady` | src/main/java/com/github/ArdaKoksall/WindowsVolumeControl.java:193-197 | the gate passes exactly when the path is set, and otherwise throws IllegalStateException with the not-available message |
| `Facade.WindowsVolumeControl.ExecuteNirCmd` | src/main/java/com/github/ArdaKoksall/WindowsVolumeControl.java:207-246 | the method's outcome is `Execute`'s for the current path |
| `Facade.WindowsVolumeControl.Invoke` | src/main/java/com/github/ArdaKoksall/WindowsVolumeControl.java:102-187 | the shared body of the public operations (readiness, then validation and scaling, then `executeNirCmd`) has `Perform`'s outcome |
| `Facade.WindowsVolumeControl.SetVolume` | src/main/java/com/github/ArdaKoksall/WindowsVolumeControl.java:102-110 | the outcome is `Perform` of `SetVolume` for the current path |
| `Facade.WindowsVolumeControl.IncreaseVolume` | src/main/java/com/github/ArdaKoksall/WindowsVolumeControl.java:121-129 | the outcome is `Perform` of `IncreaseVolume`, with the step value as written |
| `Facade.WindowsVolumeControl.DecreaseVolume` | src/main/java/com/github/ArdaKoksall/WindowsVolumeControl.java:140-148 | the outcome is `Perform` of `DecreaseVolume`, with the step value as written |
| `Facade.WindowsVolumeControl.Mute` | src/main/java/com/github/ArdaKoksall/WindowsVolumeControl.java:157-161 | the outcome is `Perform` of `Mute` |
| `Facade.WindowsVolumeControl.Unmute` | src/main/java/com/github/ArdaKoksall/WindowsVolumeControl.java:170-174 | the outcome is `Perform` of `Unmute` |
| `Facade.WindowsVolumeControl.ToggleMute` | src/main/java/com/github/ArdaKoksall/WindowsVolumeControl.java:183-187 | the outcome is `Perform` of `ToggleMute` |
| `Facade.StaticInitializer` | src/main/java/com/github/ArdaKoksall/WindowsVolumeControl.java:34-56 | initialisation succeeds exactly when the resource exists, the temp file was created and opened for writing, and the shutdown hook was registered; the new object's path is that file's, which holds the resource's bytes; otherwise it throws IllegalStateException, with the security message for a SecurityException from any of those steps |
| `Facade.NotReadyComesFirst` | src/main/java/com/github/ArdaKoksall/WindowsVolumeControl.java:102-105 | without a path every operation, even one with an invalid argument, throws IllegalStateException and attempts nothing |
| `Facade.InvalidArgumentRunsNothing` | src/main/java/com/github/ArdaKoksall/WindowsVolumeControl.java:104-146 | with the path set, an out-of-range percentage or negative step throws IllegalArgumentException, builds no command and starts no process |
| `Facade.AttemptedIff` | src/main/java/com/github/ArdaKoksall/WindowsVolumeControl.java:102-187 | a command is attempted if and only if the path is set and the argument is valid; IllegalArgumentException is thrown if and only if the path is set and the argument is invalid |
| `Facade.CommandListShape` | src/main/java/com/github/ArdaKoksall/WindowsVolumeControl.java:212-215 | the attempted command list is path, command word, arguments in order, of length 2 + the number of arguments |
| `Facade.CommandLines` | src/main/java/com/github/ArdaKoksall/WindowsVolumeControl.java:102-187 | the full command line of each of the six operations, for every percentage in 0..100 and every step up to 3276849 |
| `Facade.ExitCodeIsOnlyLogged` | src/main/java/com/github/ArdaKoksall/WindowsVolumeControl.java:230-245 | a valid call returns normally whatever the exit code, which is logged only when non-zero; a failed start rethrows its IOException, an interrupted wait its InterruptedException; the process is destroyed exactly when it was started |
| `Facade.InitializedIsReady` | src/main/java/com/github/ArdaKoksall/WindowsVolumeControl.java:207-210 | with the path set, neither readiness check fires: a call throws only for an invalid argument or a failed launch |

## Findings

| source | as written | input that shows it | evidently intended | confidence | as-written member | corrected member |
|---|---|---|---|---|---|---|
| src/main/java/com/github/ArdaKoksall/WindowsVolumeControl.java:126-127 | the rounded step, a `long`, is cast to `int`, which wraps for large steps | `increaseVolume(3276850)`: 3276850 / 100.0 * 65535 is exactly 2147483647.5, so the rounded value is 2^31 and the cast gives -2147483648; NirCmd receives `changesysvolume -2147483648`, and `decreaseVolume(3276850)` sends the same text | an increase never sends a negative change and a decrease is its exact negation; the model saturates at `Integer.MAX_VALUE` | high (the double arithmetic is exact for this input); not executed | `Translator.StepArgumentsWrap` | `Translator.TranslateCorrected` |

`Translator.Translate`, `Facade.Perform` and the class methods follow the code as written, with the narrowed value `Translator.ScaledValue`. `Translator.IncreaseStepWraps` exhibits the wrap on the value itself.

The corrected translation `Translator.TranslateCorrected` uses `Translator.StepValue`, which saturates at `Integer.MAX_VALUE`. Two lemmas cover it:
- `Translator.CorrectedDecreaseNegatesIncrease` proves the intended negation for every non-negative step.
- `Translator.TranslateCorrectedAgrees` shows that the corrected and as-written translations agree on every step up to 3276849.

For percentages in 0..100, `setVolume` is unaffected.

## Left out

- Process launch: `ProcessBuilder.start`, `waitFor` and `destroy` are OS calls. Their result for a call is the parameter `ProcessRun`.
- `StreamGobbler` threads: they drain the child's pipes concurrently and only log lines. Concurrency is outside the model.
- Resource lookup and temp-file creation: these are file-system plumbing. What `getResourceAsStream` and `Files.createTempFile` return, and what `Files.newOutputStream` throws, are given to `ExtractNirCmd` as parameters. The temp file is assumed to start empty.
- Registering the shutdown hook: whether `addShutdownHook` throws a SecurityException is the parameter `hookFailure` of `StaticInitializer`.
- `Path.of` on the extracted path: it is assumed not to throw. An unchecked `InvalidPathException` would escape both catch clauses.
- Deleting the temp file in the shutdown hook: this is a runtime-lifecycle action. It is not modelled.
- `Extractor.ExtractNirCmd`: an IOException thrown by `read`, `write` or the closing of the output stream during the copy is not modelled. The model lets reads and writes succeed. An IOException from closing the resource stream is caught and only logged in the source, so `Close` always succeeds in the model.
- Logging: it is a diagnostic side effect. It is omitted except for the warning about a non-zero exit code, which is recorded in `exitWarning`.
- `Translator.RoundedUnits`: the model uses exact arithmetic, not the source's double-precision `Math.round`. The two agree on 0..100 and on 3276850, including the exact-half percentages 10, 30, 50, 70 and 90 (6554, 19661, 32768, 45875, 58982). For other steps above 100 that fall on an exact half, the double result may differ by one, and this is not modelled.
- Failed class initialisation: Java answers any later use of the class with `NoClassDefFoundError`. In the model `StaticInitializer` just returns no object.
- Behaviour of NirCmd itself: whether muting twice stays muted, or two toggles restore the state, belongs to the external tool and is not modelled.
- Volume and mute queries, target-device selection and a logging toggle do not exist in this class.
