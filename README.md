# SupportLibrary in Dafny

A model of the logic inside KiVITechnologies' SupportLibrary, an Android
widget library written in Java, with proofs about that model. The Android
objects the library works with become plain values or parameters:

- views, drawables and contexts are values compared by identity;
- files are (name, path, is-directory) records;
- the preferences store is a map;
- the lines of /proc/cpuinfo are a sequence.

What the library decides is modelled as it is written, one module per
Java file:

- `NinePatch` (graphics/NinePatchBuilder.java): the stretch masks edited
  in place, the boundary marks taken from them, the big-endian chunk
  written into a fixed-capacity ByteBuffer and read back, and the
  per-source cache in front of build.
- `Lifecycle` (app/Activity.java): the static lifecycle flags and the
  callbacks they decide (first create, orientation change, back pressed,
  home pressed, restart, activity result). The check that the Handler
  posts 20 ms later is an explicit step.
- `MathUtils` (utils/MathUtils.java): round(number, base), the loop that
  rounds to the nearest power of the base.
- `TextFields` (view/TextField.java): line and column counts over
  String.split("\n").
- `Saving` (utils/SavingUtils.java): typed getters and putters over the
  preferences map, the "|"-joined array and matrix encoders, the
  not-found and indexing rules of the decoders, and the instance cache.
- `Colors` (utils/ColorUtils.java): the text prepared for the platform's
  colour parser, the decimal formatter, and the ARGB channel getters and
  setters. Channels are 8-bit and packed as (a << 24) or (r << 16) or
  (g << 8) or b, which is how Android documents Color.argb.
- `Files` and `Sorting`: the shared parts of the two file choosers,
  namely the file records and listings, the comparators, the style
  registry, and Collections.sort as a stable sort by comparator.
- `FileChooserUtils` (utils/FileChooser.java) and `FileChooserApp`
  (app/FileChooser.java): the listings, the up entry, the
  directory-only mode, the click handling, the results, and the colour
  dispatch.
- `ActionBars` (app/ActionBar.java), `ActionBarDrawers`
  (app/ActionBarDrawer.java) and `Menus` (view/Menu.java): the tool
  registries, the icon and logo selection, the progress bars, the
  visibility after animations, the menu anchors and listener calls, and
  the pixel loops that paint the "more" icon.
- `HardwareInfo` (utils/HardwareUtils.java): the device strings, the
  cpu[0-9]+ core filter, the /proc/cpuinfo line parser, and the lazily
  filled static fields.
- `ShadowDrawables` and `RadialGradients` (graphics/ShadowDrawable.java
  and graphics/RadialGradient.java): the eight rectangles of the shadow
  frame and the quadrant cut from the doubled gradient bitmap.
- `JavaLang` and `Views`: the Java and Android behaviour the rest relies
  on. This covers 32-bit int wrap-around, division that truncates toward
  zero, Math.abs, String.split, trim, startsWith, compareTo and
  Integer.toString, as well as visibility, rectangles, and a bitmap
  whose setPixel checks its bounds.

Code that updates fields step by step is modelled as classes with
`modifies` clauses. Loops are modelled as methods proved against
specification functions. Expressions are modelled as functions.
Exceptions the Java code throws are `Throws` results.

Some behaviour of the code is modelled as written even where it looks
unintended:

- NinePatchBuilder.getSegments reads dataX whatever list it is given, so
  the vertical segments are those of the horizontal mask.
- The padding array of NinePatchBuilder is never allocated, so it stays
  null (`padding == None`). prepareChunk, and with it every build of a
  bitmap the cache does not hold, throws NullPointerException, and so
  does reset after clearing the masks (see Findings). The chunk is also
  modelled for an allocated array, as evidently intended.
- prepareChunk computes the region count and the buffer capacity in int,
  and both wrap around. Since the y divisions are the x ones, r is the
  square of their number. With 23170 divisions and masks of fewer than
  2^28 entries, the capacity is negative and allocate throws
  IllegalArgumentException. A wrapped capacity that is positive but too
  small makes a put throw BufferOverflowException.
- ActionBarDrawer initialises lastIcon with the up arrow's drawable
  (app/ActionBarDrawer.java:148). So the first setLogo made while the
  logo is not used puts the up arrow in the icon view in place of the
  activity's icon (`ActionBarDrawers.SetLogoShowsUpArrow`).
- The decoders of SavingUtils split with the regular expression "|",
  which yields one piece per character, so no encode/decode round trip
  is claimed.
- app/FileChooser.java loads a directory-only listing by removing from a
  fixed-size list, which throws whenever a file is present.
- HardwareUtils compares CPUName and CPUFeatures with "unknown" by
  reference, so only the initial literal counts as unknown.
- Menu.show with neither a static nor a last anchor, and showAsLast
  before any show, pass null to showAsDropDown, which throws.
- ActionBarDrawer gives a tool's view the number of tools as its id and
  looks the tool up by that id, so removing a tool leaves later views
  pointing past the end of the key array (see Findings).
- The ActionBar's progress view divides before it multiplies (see
  Findings).

## Model

| member | source | states |
|---|---|---|
| TextFields.TextField.constructor | src/net/kivitechnologies/SupportLibrary/view/TextField.java:13-18 | a new field has an empty text and no listener (the field starts null and nothing assigns it) |
| TextFields.TextField.SetText | src/net/kivitechnologies/SupportLibrary/view/TextField.java:6-13 | the setText TextField inherits from EditText: the text reads back as given, the listener is kept, and the onTextChanged it triggers reports exactly what TextField.onTextChanged reports for the new text |
| TextFields.TextField.GetColumnsCount | src/net/kivitechnologies/SupportLibrary/view/TextField.java:54-63 | the loop returns the longest String.length(), in UTF-16 code units, among the lines of text.split("\n"), -1 when there is no line |
| TextFields.MaxLengthIsMaximum | src/net/kivitechnologies/SupportLibrary/view/TextField.java:54-63 | that value is -1 exactly when there are no lines; otherwise no line is longer and some line has exactly that length |
| TextFields.TextField.ColumnsCountAt | src/net/kivitechnologies/SupportLibrary/view/TextField.java:65-72 | getColumnsCount(n) is -1 exactly when n is at or past the last line, the UTF-16 length of line n inside the text, and an index-out-of-bounds failure exactly for a negative n |
| TextFields.ColumnAtMostWidest | src/net/kivitechnologies/SupportLibrary/view/TextField.java:54-72 | no single line's column count exceeds getColumnsCount() |
| TextFields.TextField.LinesCount | src/net/kivitechnologies/SupportLibrary/view/TextField.java:74-78 | getLinesCount() is 0 exactly when the text is non-empty and made only of line breaks, and 1 when the text has no line break |
| TextFields.LinesCountCorners | src/net/kivitechnologies/SupportLibrary/view/TextField.java:74-78 | the empty text counts one line and a text made only of line breaks counts none (split drops trailing empty pieces) |
| TextFields.TextField.LinesLongerThan | src/net/kivitechnologies/SupportLibrary/view/TextField.java:80-94 | the loop counts exactly the lines whose UTF-16 length exceeds columnNumber, skipping the others |
| TextFields.CountLongerBounds | src/net/kivitechnologies/SupportLibrary/view/TextField.java:80-94 | that count lies between 0 and the number of lines, equals the number of lines for a negative column, and does not grow as the column grows |
| TextFields.NoneLongerThan | src/net/kivitechnologies/SupportLibrary/view/TextField.java:80-94 | when every line is at most c long, getLinesCount(c) is 0 |
| TextFields.NoneLongerThanWidest | src/net/kivitechnologies/SupportLibrary/view/TextField.java:54-94 | getLinesCount(getColumnsCount()) is 0: no line is longer than the longest one |
| TextFields.TextField.OnTextChanged | src/net/kivitechnologies/SupportLibrary/view/TextField.java:43-52 | with a listener, the loop reports i + 1 for each piece i of the new text that differs from the whole text, in order; without one it reports nothing |
| TextFields.NotificationsNumberLines | src/net/kivitechnologies/SupportLibrary/view/TextField.java:43-52 | each reported number is between 1 and the number of pieces and names a piece that differs from the text |
| TextFields.NotificationsAscending | src/net/kivitechnologies/SupportLibrary/view/TextField.java:43-52 | the reported numbers are strictly ascending and every differing piece is reported: exactly the numbers of the differing pieces |
| TextFields.MultilineReportsEveryLine | src/net/kivitechnologies/SupportLibrary/view/TextField.java:43-52 | when the text holds a line break and no piece does, every piece is reported, as 1, 2, ... in order |
| TextFields.ReportsIffMultiline | src/net/kivitechnologies/SupportLibrary/view/TextField.java:43-52 | a text without a line break reports nothing; a text with one reports 1..getLinesCount() |
| MathUtils.Round | src/net/kivitechnologies/SupportLibrary/utils/MathUtils.java:19-30 | for inputs on which the loop ends, a zero base fails exactly with the division by zero of line 26; otherwise the loop stops at the first k >= 1 whose int-wrapped product base^k reaches number, and the result is the choice line 26 makes between it and it divided by base, in int arithmetic; when number <= base the loop does not run |
| MathUtils.PowGrows | src/net/kivitechnologies/SupportLibrary/utils/MathUtils.java:23-24 | for a base of at least 2 every power is positive and the next one is base times it, at least twice as large, so the loop ends |
| MathUtils.PowMonotone | src/net/kivitechnologies/SupportLibrary/utils/MathUtils.java:23-24 | for a base of at least 2 the powers strictly increase |
| MathUtils.StopsUnique | src/net/kivitechnologies/SupportLibrary/utils/MathUtils.java:23-24 | the step at which the loop stops is determined by number and base |
| MathUtils.RoundIsNearestPower | src/net/kivitechnologies/SupportLibrary/utils/MathUtils.java:11-30 | for a base of at least 2, a positive number and no overflow, the loop stops at the first exact power base^k reaching number, base^(k-1) <= number <= base^k, and the result is the strictly nearer of the two, a tie going to the larger |
| MathUtils.ChooseBetween | src/net/kivitechnologies/SupportLibrary/utils/MathUtils.java:26-27 | with both differences in int range, line 26 compares them exactly |
| MathUtils.RoundSmallNumber | src/net/kivitechnologies/SupportLibrary/utils/MathUtils.java:21-29 | when number <= base the loop does not run and the result is base or 1 |
| MathUtils.RoundEighteenToPowerOfTwo | src/net/kivitechnologies/SupportLibrary/utils/MathUtils.java:13 | the documented example: the loop stops at 32 and round(18, 2) is 16 |
| MathUtils.RoundNegativeBase | src/net/kivitechnologies/SupportLibrary/utils/MathUtils.java:21-29 | a negative base: round(5, -3) stops at 9, since -3 < 5 <= 9, and returns 9 |
| MathUtils.TargetIsPow | src/net/kivitechnologies/SupportLibrary/utils/MathUtils.java:21-24 | for a base of at least 2, the int product the loop computes is the exact power as long as that power fits in an int |
| MathUtils.UnitTargets | src/net/kivitechnologies/SupportLibrary/utils/MathUtils.java:21-24 | for base 1 or -1 every value target takes is 1 or -1 |
| MathUtils.ZeroTargets | src/net/kivitechnologies/SupportLibrary/utils/MathUtils.java:21-24 | for base 0 target stays 0 |
| MathUtils.NeverStops | src/net/kivitechnologies/SupportLibrary/utils/MathUtils.java:23-24 | for base 1 or -1 and a number of at least 2, or base 0 and a positive number, target never reaches number, so the loop never ends |
| MathUtils.RoundUnitBase | src/net/kivitechnologies/SupportLibrary/utils/MathUtils.java:11-17 | for base 1 or -1 the documented result, the power of base nearest number with a tie going to the larger, is 1, or -1 for base -1 and a negative number |
| MathUtils.UnitPowers | src/net/kivitechnologies/SupportLibrary/utils/MathUtils.java:11-17 | every power of 1 or -1 is 1 or the base |
| Colors.GetArgb | src/net/kivitechnologies/SupportLibrary/utils/ColorUtils.java:108-116 | getARGB gives four 8-bit channels, alpha, red, green, blue, that pack back into the colour |
| Colors.GetRgb | src/net/kivitechnologies/SupportLibrary/utils/ColorUtils.java:93-100 | getRGB is getARGB without the alpha |
| Colors.ArgbOfChannels | src/net/kivitechnologies/SupportLibrary/utils/ColorUtils.java:124-160 | packing the four channels read from a colour gives the colour back |
| Colors.ChannelsOfArgb | src/net/kivitechnologies/SupportLibrary/utils/ColorUtils.java:124-160 | each channel read from a packed colour is the component it was packed with |
| Colors.ParseRgb | src/net/kivitechnologies/SupportLibrary/utils/ColorUtils.java:48-51 | parse(r, g, b) is opaque (alpha 255) with the given red, green and blue |
| Colors.SetAlpha | src/net/kivitechnologies/SupportLibrary/utils/ColorUtils.java:169-172 | setAlpha(c, a) has alpha a and the red, green and blue of c |
| Colors.SetRed | src/net/kivitechnologies/SupportLibrary/utils/ColorUtils.java:181-184 | setRed(c, v) has red v and the alpha, green and blue of c |
| Colors.SetGreen | src/net/kivitechnologies/SupportLibrary/utils/ColorUtils.java:193-196 | setGreen(c, v) has green v and the alpha, red and blue of c |
| Colors.SetBlue | src/net/kivitechnologies/SupportLibrary/utils/ColorUtils.java:205-208 | setBlue(c, v) has blue v and the alpha, red and green of c |
| Colors.SetOwnValueIsIdentity | src/net/kivitechnologies/SupportLibrary/utils/ColorUtils.java:169-208 | setting a channel to its own value returns the same colour |
| Colors.PreparedHex | src/net/kivitechnologies/SupportLibrary/utils/ColorUtils.java:59-68 | the text parse(String) hands to parseColor always holds a '#'; a text starting with '#' arrives unchanged unless it has four characters; one without '#' gets it appended at the end (unless that makes four characters); a four-character text s0 s1 s2 s3 becomes the seven characters s0 s1 s1 s2 s2 s3 s3 |
| Colors.PreparedHexExamples | src/net/kivitechnologies/SupportLibrary/utils/ColorUtils.java:59-68 | "#f0a" becomes "#ff00aa", "abc" becomes "abbcc##" and "#ff00aa" is unchanged |
| Colors.Format | src/net/kivitechnologies/SupportLibrary/utils/ColorUtils.java:76-85 | parse(int) is '#' followed by 4 to 12 decimal digits, never hexadecimal |
| Colors.ChannelTextDigits | src/net/kivitechnologies/SupportLibrary/utils/ColorUtils.java:80-83 | each channel prints as one to three decimal digits |
| Colors.FormatLosesSmallChannels | src/net/kivitechnologies/SupportLibrary/utils/ColorUtils.java:76-85 | every channel below 10 prints as "0", so transparent black and a colour whose only channel is blue 9 both print "#0000" |
| Saving.PrefsName | src/net/kivitechnologies/SupportLibrary/utils/SavingUtils.java:35-44 | the preferences file is opened under the given name, or under the context's package name when the name is null or empty |
| Saving.SavingUtils.constructor | src/net/kivitechnologies/SupportLibrary/utils/SavingUtils.java:35-44 | a new instance appends itself to the static list and keeps its context and the file opened under PrefsName |
| Saving.FirstBasedOn | src/net/kivitechnologies/SupportLibrary/utils/SavingUtils.java:623-630 | the position found is the first instance whose context equals ctx: every earlier one is based on another context, and none is when nothing is found |
| Saving.SavingUtils.ForContext | src/net/kivitechnologies/SupportLibrary/utils/SavingUtils.java:623-630 | forContext returns that first instance and leaves the list as it was, or else creates an instance under the package name and appends it |
| Saving.SavingUtils.GetInt | src/net/kivitechnologies/SupportLibrary/utils/SavingUtils.java:75-78 | an absent key reads as the default, a key holding an int reads as that value, and a key holding another type throws ClassCastException; it succeeds exactly when the key is absent or holds an int |
| Saving.SavingUtils.GetLong | src/net/kivitechnologies/SupportLibrary/utils/SavingUtils.java:145-148 | an absent key reads as the default, a key holding a long reads as that value, and a key holding another type throws ClassCastException; it succeeds exactly when the key is absent or holds a long |
| Saving.SavingUtils.GetBoolean | src/net/kivitechnologies/SupportLibrary/utils/SavingUtils.java:169-172 | an absent key reads as the default, a key holding a boolean reads as that value, and a key holding another type throws ClassCastException; it succeeds exactly when the key is absent or holds a boolean |
| Saving.SavingUtils.GetString | src/net/kivitechnologies/SupportLibrary/utils/SavingUtils.java:193-196 | an absent key reads as the default, a key holding a string reads as that value, and a key holding another type throws ClassCastException; it succeeds exactly when the key is absent or holds a string |
| Saving.SavingUtils.PutInt | src/net/kivitechnologies/SupportLibrary/utils/SavingUtils.java:412-415 | the key now holds the int and every other key is unchanged |
| Saving.SavingUtils.PutLong | src/net/kivitechnologies/SupportLibrary/utils/SavingUtils.java:445-448 | the key now holds the long and every other key is unchanged |
| Saving.SavingUtils.PutBoolean | src/net/kivitechnologies/SupportLibrary/utils/SavingUtils.java:456-459 | the key now holds the boolean and every other key is unchanged |
| Saving.SavingUtils.PutString | src/net/kivitechnologies/SupportLibrary/utils/SavingUtils.java:467-470 | the key now holds the string; a null string removes the key, as the editor does |
| Saving.GetAfterPut | src/net/kivitechnologies/SupportLibrary/utils/SavingUtils.java:75-78 | a typed get after a put of that type reads the value back, other keys read as before, and a get of another type fails with a class-cast exception |
| Saving.AbsentReadsDefault | src/net/kivitechnologies/SupportLibrary/utils/SavingUtils.java:75-208 | an absent key reads as the default; the one-argument getters default to 0, 0, false and null, and the decoders start from "" |
| Saving.SavingUtils.PutArray | src/net/kivitechnologies/SupportLibrary/utils/SavingUtils.java:478-486 | putIntArray and putBooleanArray store the element texts joined by bars and nothing else; an empty array fails in substring(0, -1) and stores nothing |
| Saving.SavingUtils.PutMatrix | src/net/kivitechnologies/SupportLibrary/utils/SavingUtils.java:542-551 | the matrix encoders store the row-major cells joined by bars under name + "_MATRIX"; a matrix with no cell fails and stores nothing |
| Saving.AppendRow | src/net/kivitechnologies/SupportLibrary/utils/SavingUtils.java:546-548 | the inner loop appends one row's texts, each followed by a bar, after those already written |
| Saving.SavingUtils.Commit | src/net/kivitechnologies/SupportLibrary/utils/SavingUtils.java:485 | dropping the builder's last character stores the pieces joined by bars; with no piece nothing is stored |
| Saving.TerminatedIsJoin | src/net/kivitechnologies/SupportLibrary/utils/SavingUtils.java:480-485 | the builder holds the pieces joined by bars plus one trailing bar |
| Saving.TextsArePieces | src/net/kivitechnologies/SupportLibrary/utils/SavingUtils.java:482-483 | every element text is non-empty and free of bars |
| Saving.LiteralSplitRecoversTexts | src/net/kivitechnologies/SupportLibrary/utils/SavingUtils.java:478-486 | splitting the stored text on a literal bar character would give the element texts back |
| Saving.SavingUtils.GetArray | src/net/kivitechnologies/SupportLibrary/utils/SavingUtils.java:217-232 | getIntArray and getBooleanArray: a missing or empty entry fails with NoSuchArrayException; otherwise the result holds one parsed value per character of the stored text (the split on the regular expression of a lone bar cuts between all characters) and fails with NumberFormatException exactly when a character does not parse |
| Saving.ArrayOfTwoNeverDecodes | src/net/kivitechnologies/SupportLibrary/utils/SavingUtils.java:217-232 | an int array of two or more elements is stored with a bar between them, which parseInt rejects, so it never reads back |
| Saving.OneDigitRoundTrip | src/net/kivitechnologies/SupportLibrary/utils/SavingUtils.java:217-232 | an array holding one digit 0..9 is the int array that reads back as stored |
| Saving.BooleansReadFalse | src/net/kivitechnologies/SupportLibrary/utils/SavingUtils.java:289-304 | getBooleanArray reads every character as false, since no single character equals "true" |
| Saving.SavingUtils.GetMatrix | src/net/kivitechnologies/SupportLibrary/utils/SavingUtils.java:316-329 | getIntMatrix and getBooleanMatrix: negative sizes fail, a missing or empty entry fails with NoSuchArrayException, a result holds at each cell (i, j) the value parsed from character i * x + j, and a failure is that of the first cell in row-major order that does not read |
| Saving.ReadRow | src/net/kivitechnologies/SupportLibrary/utils/SavingUtils.java:325-326 | the inner loop reads row i cell by cell and stops at the first cell that fails, after all earlier cells of the row read |
| Saving.FlattenLayout | src/net/kivitechnologies/SupportLibrary/utils/SavingUtils.java:546-548 | the writer puts cell (i, j) of a matrix with y columns at flat index i * y + j |
| Saving.ReaderMatchesWriterIff | src/net/kivitechnologies/SupportLibrary/utils/SavingUtils.java:326 | the reader's index i * x + j agrees with the writer's i * y + j on every cell exactly when the matrix is square, has at most one row or has no column |
| Lifecycle.CreateStep | src/net/kivitechnologies/SupportLibrary/app/Activity.java:93-115 | onCreate during a restart only consumes RESTART (after applying the custom theme); otherwise it sets CREATED and INITED, and the first-create callback fires, once, exactly when neither RESTART nor INITED was set |
| Lifecycle.StartStep | src/net/kivitechnologies/SupportLibrary/app/Activity.java:151-177 | onStart sets STARTED; the orientation callback fires exactly when PAUSED, STOPPED, DESTROYED and CREATED are all set, clears them, sets OCHANGED and then no start callback fires; otherwise "from back" fires exactly when DESTROYED and CREATED are set and "from home" exactly when STOPPED is set and ARESULTED is not; INITED and RESTART are untouched |
| Lifecycle.BackPressedStep | src/net/kivitechnologies/SupportLibrary/app/Activity.java:183-187 | onBackPressed sets BPRESSED, changes no other flag and fires nothing |
| Lifecycle.ActivityResultStep | src/net/kivitechnologies/SupportLibrary/app/Activity.java:193-202 | onActivityResult sets ARESULTED and finishes with RESULT_EXIT exactly when that is the result received, and fires nothing else |
| Lifecycle.StopStep | src/net/kivitechnologies/SupportLibrary/app/Activity.java:228-260 | onStop sets STOPPED and fires nothing; after another activity was started (ASTARTED, PAUSED, CREATED, STARTED all set) it clears those four and posts nothing; otherwise it posts the delayed check exactly when PAUSED is set |
| Lifecycle.DeferredStep | src/net/kivitechnologies/SupportLibrary/app/Activity.java:242-258 | the delayed check fires "home pressed" and clears PAUSED exactly when DESTROYED, OCHANGED and ARESULTED are all clear, and always leaves OCHANGED and ARESULTED clear, touching no other flag |
| Lifecycle.PauseStep | src/net/kivitechnologies/SupportLibrary/app/Activity.java:265-269 | onPause sets PAUSED, changes no other flag and fires nothing |
| Lifecycle.DestroyStep | src/net/kivitechnologies/SupportLibrary/app/Activity.java:274-293 | onDestroy changes nothing during a restart; otherwise DESTROYED ends set unless the five-flag case clears it; the "from back" stop fires exactly for a back press with PAUSED and STOPPED set but not both ARESULTED and STARTED, and then exactly BPRESSED, PAUSED and STOPPED are cleared |
| Lifecycle.RestartStep | src/net/kivitechnologies/SupportLibrary/app/Activity.java:298-303 | restart outside a restart leaves every flag as it was (RESTART is set and consumed in the call) and only re-applies the theme |
| Lifecycle.AnotherActivityStep | src/net/kivitechnologies/SupportLibrary/app/Activity.java:411-414 | onAnotherActivityStarted sets ASTARTED, changes no other flag and fires the callback with the intent |
| Lifecycle.StepFacts | src/net/kivitechnologies/SupportLibrary/app/Activity.java:108-112 | no lifecycle call fires the first create more than once, none fires it while INITED is set, none clears INITED, and firing it leaves INITED set |
| Lifecycle.FirstCreateAtMostOnce | src/net/kivitechnologies/SupportLibrary/app/Activity.java:108-112 | over any sequence of lifecycle calls that starts outside a restart, onFirstCreate fires at most once, and never when INITED was already set |
| Lifecycle.StaticFlags.constructor | src/net/kivitechnologies/SupportLibrary/app/Activity.java:78 | the eleven static flags start false |
| Lifecycle.Activity.constructor | src/net/kivitechnologies/SupportLibrary/app/Activity.java:85-86 | a new activity has no custom theme, has done nothing and has posted nothing |
| Lifecycle.Activity.OnCreate | src/net/kivitechnologies/SupportLibrary/app/Activity.java:93-115 | the statements of onCreate change the shared flags and the events as the create step says |
| Lifecycle.Activity.OnStart | src/net/kivitechnologies/SupportLibrary/app/Activity.java:151-177 | the three checks of onStart, in order on the flags each leaves, change the flags and the events as the start step says |
| Lifecycle.Activity.OnBackPressed | src/net/kivitechnologies/SupportLibrary/app/Activity.java:183-187 | onBackPressed sets BPRESSED |
| Lifecycle.Activity.OnActivityResult | src/net/kivitechnologies/SupportLibrary/app/Activity.java:193-202 | onActivityResult follows the result step |
| Lifecycle.Activity.ForceBack | src/net/kivitechnologies/SupportLibrary/app/Activity.java:207-211 | forceBack finishes with RESULT_BACK |
| Lifecycle.Activity.ForceExit | src/net/kivitechnologies/SupportLibrary/app/Activity.java:216-220 | forceExit finishes with RESULT_EXIT |
| Lifecycle.Activity.OnStop | src/net/kivitechnologies/SupportLibrary/app/Activity.java:228-260 | onStop follows the stop step and adds one pending delayed check exactly when that step posts one |
| Lifecycle.Activity.RunDeferredCheck | src/net/kivitechnologies/SupportLibrary/app/Activity.java:242-258 | running one pending check follows the deferred step and removes it from the pending ones |
| Lifecycle.Activity.OnPause | src/net/kivitechnologies/SupportLibrary/app/Activity.java:265-269 | onPause sets PAUSED |
| Lifecycle.Activity.OnDestroy | src/net/kivitechnologies/SupportLibrary/app/Activity.java:274-293 | onDestroy follows the destroy step |
| Lifecycle.Activity.Restart | src/net/kivitechnologies/SupportLibrary/app/Activity.java:298-303 | restart (set RESTART, onDestroy, onCreate) follows the restart step |
| Lifecycle.Activity.ChangeTheme | src/net/kivitechnologies/SupportLibrary/app/Activity.java:310-314 | changeTheme stores the theme and restarts with it |
| Lifecycle.Activity.OnAnotherActivityStarted | src/net/kivitechnologies/SupportLibrary/app/Activity.java:411-414 | starting another activity sets ASTARTED and records the intent |
| Lifecycle.Activity.StartActivities | src/net/kivitechnologies/SupportLibrary/app/Activity.java:328-334 | startActivities calls the callback once per intent, in order, and sets ASTARTED when there is at least one |
| NinePatch.DecodeIntBytes | src/net/kivitechnologies/SupportLibrary/graphics/NinePatchBuilder.java:130-157 | the four bytes putInt writes read back (big-endian, as ByteBuffer.getInt does) give the value wrapped to 32 bits |
| NinePatch.DecodeWordsWords | src/net/kivitechnologies/SupportLibrary/graphics/NinePatchBuilder.java:143-158 | a run of putInt calls reads back as the sequence of values, each wrapped to 32 bits |
| NinePatch.ByteBuffer.Allocate | src/net/kivitechnologies/SupportLibrary/graphics/NinePatchBuilder.java:118 | allocate gives a zero-filled buffer of the requested capacity at position 0 |
| NinePatch.ByteBuffer.Put | src/net/kivitechnologies/SupportLibrary/graphics/NinePatchBuilder.java:121-127 | put appends one byte at the position and advances it by one; the bytes past the position stay zero |
| NinePatch.ByteBuffer.PutInt | src/net/kivitechnologies/SupportLibrary/graphics/NinePatchBuilder.java:130-140 | putInt appends the four big-endian bytes of the int and advances the position by four |
| NinePatch.Boundaries | src/net/kivitechnologies/SupportLibrary/graphics/NinePatchBuilder.java:98-109 | getSegments collects at most one index per mask entry after the first, so fewer indices than mask entries |
| NinePatch.BoundariesSpec | src/net/kivitechnologies/SupportLibrary/graphics/NinePatchBuilder.java:98-109 | the indices getSegments collects are exactly the x in 1..size-1 where the mask changes value, each once and in ascending order |
| NinePatch.Marks | src/net/kivitechnologies/SupportLibrary/graphics/NinePatchBuilder.java:105 | the division added for the k-th boundary is the boundary for even k and at most one less for odd k, one division per boundary |
| NinePatch.MarksOrdered | src/net/kivitechnologies/SupportLibrary/graphics/NinePatchBuilder.java:105 | subtracting pos.size() % 2 from ascending boundaries gives non-negative, non-decreasing divisions |
| NinePatch.SingleStretch | src/net/kivitechnologies/SupportLibrary/graphics/NinePatchBuilder.java:98-109 | a mask with one stretch of ones [s, e) strictly inside it has boundaries s and e and divisions s and e - 1 |
| NinePatch.NinePatchBuilder.constructor | src/net/kivitechnologies/SupportLibrary/graphics/NinePatchBuilder.java:49-55 | a new builder has empty x and y masks, no name and a null padding array, and shares the static cache |
| NinePatch.DrawableCache.constructor | src/net/kivitechnologies/SupportLibrary/graphics/NinePatchBuilder.java:37-42 | the static cache starts empty |
| NinePatch.NinePatchBuilder.AddSegment | src/net/kivitechnologies/SupportLibrary/graphics/NinePatchBuilder.java:67-77 | entries s..e-1 become 1 and the list grows to e where it was shorter; a start past the end appends e - s ones at the end; a negative start below e throws IndexOutOfBounds; an empty range changes nothing; a 0/1 mask stays a 0/1 mask |
| NinePatch.NinePatchBuilder.AddSegmentX | src/net/kivitechnologies/SupportLibrary/graphics/NinePatchBuilder.java:57-60 | addSegment applied to the x mask; the y mask is unchanged and a throw leaves the x mask unchanged |
| NinePatch.NinePatchBuilder.AddSegmentY | src/net/kivitechnologies/SupportLibrary/graphics/NinePatchBuilder.java:62-65 | addSegment applied to the y mask; the x mask is unchanged and a throw leaves the y mask unchanged |
| NinePatch.NinePatchBuilder.RemoveSegment | src/net/kivitechnologies/SupportLibrary/graphics/NinePatchBuilder.java:89-96 | entries s..min(e, size)-1 become 0 and the length never changes; a negative start below e throws IndexOutOfBounds |
| NinePatch.NinePatchBuilder.RemoveSegmentX | src/net/kivitechnologies/SupportLibrary/graphics/NinePatchBuilder.java:79-82 | removeSegment applied to the x mask only |
| NinePatch.NinePatchBuilder.RemoveSegmentY | src/net/kivitechnologies/SupportLibrary/graphics/NinePatchBuilder.java:84-87 | removeSegment applied to the y mask only |
| NinePatch.NinePatchBuilder.GetSegments | src/net/kivitechnologies/SupportLibrary/graphics/NinePatchBuilder.java:98-109 | the divisions derived from dataX whatever list is passed, non-negative, non-decreasing and fewer than the mask entries |
| NinePatch.NinePatchBuilder.PutHeader | src/net/kivitechnologies/SupportLibrary/graphics/NinePatchBuilder.java:120-140 | the header puts write the flag byte, the doubled mask sizes and region count as bytes, two zero ints, the four paddings and a zero int: 32 bytes |
| NinePatch.NinePatchBuilder.PutWords | src/net/kivitechnologies/SupportLibrary/graphics/NinePatchBuilder.java:143-158 | each putInt loop appends the words of its values in order |
| NinePatch.NinePatchBuilder.PrepareChunk | src/net/kivitechnologies/SupportLibrary/graphics/NinePatchBuilder.java:111-161 | the loops and puts, with r and the capacity computed in int, throw exactly what ChunkResult throws and otherwise return a fresh array holding exactly its bytes |
| NinePatch.WriteChunk | src/net/kivitechnologies/SupportLibrary/graphics/NinePatchBuilder.java:118-160 | allocate and the puts, into a buffer with room for them, leave the header, the divisions twice, the ones and zeros up to the capacity, in a fresh array |
| NinePatch.ChunkResult | src/net/kivitechnologies/SupportLibrary/graphics/NinePatchBuilder.java:111-161 | when the exact capacity 32 + (dX + dY) * 8 + r * 4 fits in an int: NullPointerException exactly for a null padding array, and otherwise the chunk (header, the x divisions, the same divisions again for y, r ones, zeros to the end); in every case a result is as long as the int capacity, needs an allocated padding array, and a failure is IllegalArgumentException, BufferOverflowException or NullPointerException |
| NinePatch.ManyDivisionsOverflow | src/net/kivitechnologies/SupportLibrary/graphics/NinePatchBuilder.java:115-118 | with 23170 divisions and fewer than 2^28 mask entries the exact capacity does not fit in an int, the int capacity is negative and allocate throws IllegalArgumentException |
| NinePatch.ChunkDecodes | src/net/kivitechnologies/SupportLibrary/graphics/NinePatchBuilder.java:111-161 | the chunk's first four bytes are the flag and the three counts, and the ints after them are the written fields, each wrapped to 32 bits |
| NinePatch.ChunkReadsBack | src/net/kivitechnologies/SupportLibrary/graphics/NinePatchBuilder.java:111-161 | read back, the chunk of a builder holds the flag, the mask sizes and region count, two zeros, the padding, a zero, the divisions of dataX twice, r ones and zeros to the allocated size |
| NinePatch.ResolvedName | src/net/kivitechnologies/SupportLibrary/graphics/NinePatchBuilder.java:173-174 | a non-empty name is kept; a null or empty one becomes a name starting with "NinePatch@" |
| NinePatch.NinePatchBuilder.BuildBitmap | src/net/kivitechnologies/SupportLibrary/graphics/NinePatchBuilder.java:163-179 | a bitmap built before returns its cached drawable and changes nothing; otherwise, when prepareChunk throws (NullPointerException for a null padding array), the same exception with the name and cache unchanged; when it succeeds, a nine-patch over the bitmap with that chunk and resolved name, the name stored, and the cache gaining exactly that entry |
| NinePatch.NinePatchBuilder.Build | src/net/kivitechnologies/SupportLibrary/graphics/NinePatchBuilder.java:186-231 | a nine-patch is returned unchanged; a bitmap drawable yields the cached drawable of its bitmap, or on a cache miss what prepareChunk throws; a container is rebuilt with as many children; any other drawable throws IllegalArgument for a non-positive size and otherwise is drawn into a new bitmap of that size, built as a bitmap is; cache entries are never removed |
| NinePatch.NinePatchBuilder.Rasterise | src/net/kivitechnologies/SupportLibrary/graphics/NinePatchBuilder.java:226-230 | createBitmap refuses a non-positive size and changes nothing; otherwise one new bitmap of width x height is allocated and the result is the drawable cached for it, or, when it was not cached and prepareChunk throws, that exception |
| NinePatch.NinePatchBuilder.Reset | src/net/kivitechnologies/SupportLibrary/graphics/NinePatchBuilder.java:233-240 | both masks become empty; then a null padding array throws NullPointerException with the name kept, while an allocated one is zeroed, the name forgotten and the builder itself returned |
| NinePatch.NinePatchBuilder.SetName | src/net/kivitechnologies/SupportLibrary/graphics/NinePatchBuilder.java:242-246 | the name is stored and the builder itself is returned |
| NinePatch.NewBuilderCannotBuild | src/net/kivitechnologies/SupportLibrary/graphics/NinePatchBuilder.java:45 | on a new builder, whose padding array is null, building a bitmap the cache does not hold throws NullPointerException |
| Menus.Item.constructor | src/net/kivitechnologies/SupportLibrary/view/Menu.java:166-201 | a new item has empty title and subtitle, no icon, a visible unchecked check box and the subtitle line GONE |
| Menus.Item.IsChecked | src/net/kivitechnologies/SupportLibrary/view/Menu.java:228-231 | an item reports being checked only while it is checkable |
| Menus.Item.SetCheckable | src/net/kivitechnologies/SupportLibrary/view/Menu.java:233-236 | the check box becomes VISIBLE or INVISIBLE (never GONE) so that isCheckable answers what was set; its checked state and everything else are kept |
| Menus.Item.SetChecked | src/net/kivitechnologies/SupportLibrary/view/Menu.java:238-241 | the box's state is stored even while hidden; isChecked is then the state and checkability together; nothing else changes |
| Menus.Item.SetDisplaySubtitle | src/net/kivitechnologies/SupportLibrary/view/Menu.java:243-247 | the subtitle line becomes VISIBLE when shown and GONE otherwise, keeping the item's invariant; nothing else changes |
| Menus.Item.SetIcon | src/net/kivitechnologies/SupportLibrary/view/Menu.java:249-252 | only the icon changes |
| Menus.Item.SetTitle | src/net/kivitechnologies/SupportLibrary/view/Menu.java:274-277 | only the title changes |
| Menus.Item.SetSubtitle | src/net/kivitechnologies/SupportLibrary/view/Menu.java:254-257 | only the subtitle text changes |
| Menus.Menu.constructor | src/net/kivitechnologies/SupportLibrary/view/Menu.java:47-68 | a new menu has no listener, no anchors, no items, and has not been shown, dismissed or reported anything |
| Menus.Menu.AddItem | src/net/kivitechnologies/SupportLibrary/view/Menu.java:70-82 | a fresh item with the given title and icon, checkable as asked and unchecked, subtitle hidden, is appended as the last row and the count grows by one; nothing else changes |
| Menus.Menu.SetMenuListener | src/net/kivitechnologies/SupportLibrary/view/Menu.java:121-124 | only the listener changes |
| Menus.Menu.SetStaticAnchor | src/net/kivitechnologies/SupportLibrary/view/Menu.java:126-129 | only the static anchor changes |
| Menus.Menu.Dismiss | src/net/kivitechnologies/SupportLibrary/view/Menu.java:114-119 | the window is dismissed once more and the listener, when set, hears onMenuDismiss; nothing else changes |
| Menus.Menu.ShowAt | src/net/kivitechnologies/SupportLibrary/view/Menu.java:136-143 | a null anchor throws NullPointerException from showAsDropDown, with nothing remembered or reported; any other anchor is dropped down under, becomes the last anchor, and the listener, when set, hears onMenuShow |
| Menus.Menu.ShowAnchor | src/net/kivitechnologies/SupportLibrary/view/Menu.java:130-133 | the anchor show() uses is the static anchor when one is set, else the last anchor; it is null exactly when both are |
| Menus.Menu.Show | src/net/kivitechnologies/SupportLibrary/view/Menu.java:131-134 | show drops down at the static anchor when one is set and otherwise at the last anchor; it throws NullPointerException, changing nothing, exactly when neither is set |
| Menus.Menu.ShowAsLast | src/net/kivitechnologies/SupportLibrary/view/Menu.java:145-148 | showAsLast drops down at the last anchor whatever the static anchor, which it leaves alone; before any show it throws NullPointerException, changing nothing |
| Menus.Menu.OnItemClick | src/net/kivitechnologies/SupportLibrary/view/Menu.java:28-37 | a click on a row reaches the listener with its position only when a listener is set; nothing else changes |
| ActionBars.OnStateChange | src/net/kivitechnologies/SupportLibrary/app/ActionBar.java:95-114 | the group counts as pressed exactly when state_pressed is among the states; pressed, its background is the pressed item colour at alpha 0x40 with the colour's own red, green and blue; otherwise transparent |
| ActionBars.GenerateMoreDrawable | src/net/kivitechnologies/SupportLibrary/app/ActionBar.java:704-737 | as written, painting the ten-row bitmap throws IllegalArgumentException |
| ActionBars.DrawerDotsFit | src/net/kivitechnologies/SupportLibrary/app/ActionBarDrawer.java:827-833 | with the drawer's step of three, every row the dot loop writes lies inside the 10 x 10 bitmap and is a dot pixel |
| ActionBars.ProgressViewWidth | src/net/kivitechnologies/SupportLibrary/app/ActionBar.java:362 | the width update() gives the bar, width * (current / max) in int arithmetic: it throws an ArithmeticException exactly for a zero maximum, and any progress from 0 up to below the maximum gives 0 |
| ActionBars.ProgressViewAllOrNothing | src/net/kivitechnologies/SupportLibrary/app/ActionBar.java:355-366 | with the quotient taken first, a progress below the maximum draws nothing, a full one draws the whole width, and a zero maximum throws |
| ActionBars.ProgressViewHalfWay | src/net/kivitechnologies/SupportLibrary/app/ActionBar.java:362 | at half progress the action bar draws an empty bar where width * current / max gives half the width |
| ActionBars.ProgressView.constructor | src/net/kivitechnologies/SupportLibrary/app/ActionBar.java:323-331 | a new progress view has maximum 1, progress 0 and nothing drawn |
| ActionBars.ProgressView.Update | src/net/kivitechnologies/SupportLibrary/app/ActionBar.java:355-366 | update draws to width * (current / max) of the view's width, or the screen's while the view has none, and throws on a zero maximum leaving the drawing as it was; the values are untouched |
| ActionBars.ProgressView.SetMax | src/net/kivitechnologies/SupportLibrary/app/ActionBar.java:333-337 | the maximum reads back even when the redraw throws, which happens exactly for a zero maximum |
| ActionBars.ProgressView.SetProgress | src/net/kivitechnologies/SupportLibrary/app/ActionBar.java:344-348 | the progress reads back even when the redraw throws, which happens exactly while the maximum is zero |
| ActionBars.AddedToolShown | src/net/kivitechnologies/SupportLibrary/app/ActionBar.java:511-520 | adding an absent tool with a new view keeps the container showing each tool's view exactly once |
| ActionBars.RemovedToolShown | src/net/kivitechnologies/SupportLibrary/app/ActionBar.java:562-570 | removing a present tool's view keeps the container showing each remaining tool's view exactly once, and the count drops by one |
| ActionBars.ActionBar.constructor | src/net/kivitechnologies/SupportLibrary/app/ActionBar.java:442-509 | a built bar is visible with the up arrow INVISIBLE, the activity's icon, a 22 sp title over a shown subtitle, a visible progress view with maximum 1, no tools and the drawer's dot images on the more button |
| ActionBars.ActionBar.ToolsCount | src/net/kivitechnologies/SupportLibrary/app/ActionBar.java:547-550 | getToolsCount is the number of tool views in the container |
| ActionBars.ActionBar.AddTool | src/net/kivitechnologies/SupportLibrary/app/ActionBar.java:511-520 | false and no change for a tool already present; otherwise true, the tool maps to a new view appended to the container, and the count grows by one |
| ActionBars.ActionBar.RemoveTool | src/net/kivitechnologies/SupportLibrary/app/ActionBar.java:562-570 | false and no change for an absent tool; otherwise true, the tool leaves the map, its view leaves the container, and the count drops by one |
| ActionBars.ActionBar.SetDisplayUseLogo | src/net/kivitechnologies/SupportLibrary/app/ActionBar.java:618-625 | the icon view shows the kept logo when the logo is used and the kept icon otherwise |
| ActionBars.ActionBar.SetIcon | src/net/kivitechnologies/SupportLibrary/app/ActionBar.java:627-632 | the icon is kept and is shown only while the logo is not in use |
| ActionBars.ActionBar.SetLogo | src/net/kivitechnologies/SupportLibrary/app/ActionBar.java:634-639 | the logo is kept and is shown only while the logo is in use |
| ActionBars.ActionBar.SetDisplayUpButton | src/net/kivitechnologies/SupportLibrary/app/ActionBar.java:590-593 | the up arrow becomes VISIBLE or GONE |
| ActionBars.ActionBar.SetDisplaySubtitle | src/net/kivitechnologies/SupportLibrary/app/ActionBar.java:215-239 | with the subtitle, a 22 sp title and a VISIBLE subtitle; without it, a 25 sp title and a GONE subtitle; the texts are kept |
| ActionBars.ActionBar.SetDisplayTaskProgress | src/net/kivitechnologies/SupportLibrary/app/ActionBar.java:595-598 | the progress view becomes VISIBLE or GONE |
| ActionBars.ActionBar.SetUpIndicator | src/net/kivitechnologies/SupportLibrary/app/ActionBar.java:241-245 | a given drawable replaces the up arrow's image and a null one is ignored |
| ActionBars.ActionBar.SetMoreIndicator | src/net/kivitechnologies/SupportLibrary/app/ActionBar.java:641-644 | the more button shows the given drawable |
| ActionBars.ActionBar.SetTitle | src/net/kivitechnologies/SupportLibrary/app/ActionBar.java:646-649 | only the title text changes |
| ActionBars.ActionBar.SetSubtitle | src/net/kivitechnologies/SupportLibrary/app/ActionBar.java:656-659 | only the subtitle text changes |
| ActionBars.ActionBar.OnUpButtonClick | src/net/kivitechnologies/SupportLibrary/app/ActionBar.java:180-183 | a click on the up button group finishes the activity and changes nothing else shown |
| ActionBars.ActionBar.OnAnimationStart | src/net/kivitechnologies/SupportLibrary/app/ActionBar.java:413-417 | the show animation starting makes the root VISIBLE; any other leaves it |
| ActionBars.ActionBar.OnAnimationEnd | src/net/kivitechnologies/SupportLibrary/app/ActionBar.java:424-428 | the hide animation ending makes the root GONE; any other leaves it |
| ActionBars.ActionBar.SetMaxProgress | src/net/kivitechnologies/SupportLibrary/app/ActionBar.java:605-608 | the progress view's maximum becomes the value and the call throws exactly for zero |
| ActionBars.ActionBar.SetCurrentProgress | src/net/kivitechnologies/SupportLibrary/app/ActionBar.java:610-613 | the progress view's progress becomes the value and the call throws exactly while the maximum is zero |
| ActionBarDrawers.ProgressBar.constructor | src/net/kivitechnologies/SupportLibrary/app/ActionBarDrawer.java:666-675 | a new progress bar has maximum 100 and no progress |
| ActionBarDrawers.ProgressBar.SetMax | src/net/kivitechnologies/SupportLibrary/app/ActionBarDrawer.java:728-731 | only the maximum changes |
| ActionBarDrawers.ProgressBar.SetProgress | src/net/kivitechnologies/SupportLibrary/app/ActionBarDrawer.java:738-741 | only the progress changes |
| ActionBarDrawers.ProgressWidth | src/net/kivitechnologies/SupportLibrary/app/ActionBarDrawer.java:776 | the width onDraw gives the progress drawable, currentProgress * width / max in int arithmetic: it throws an ArithmeticException exactly for a zero maximum, and no progress draws nothing |
| ActionBarDrawers.ProgressWidthBounds | src/net/kivitechnologies/SupportLibrary/app/ActionBarDrawer.java:768-778 | for progress between 0 and the maximum and no overflow, onDraw fills progress * width / max of the canvas: nothing at 0, the whole width at the maximum, never more; a zero maximum throws |
| ActionBarDrawers.ProgressWidthMonotone | src/net/kivitechnologies/SupportLibrary/app/ActionBarDrawer.java:776 | more progress never draws a narrower bar |
| ActionBarDrawers.MoreDotsInside | src/net/kivitechnologies/SupportLibrary/app/ActionBarDrawer.java:827-844 | the dot pixels are rows 1, 2, 4, 5, 7 and 8 of columns 4 and 5, all inside the 10 x 10 bitmap, so no setPixel throws |
| ActionBarDrawers.PaintDot | src/net/kivitechnologies/SupportLibrary/app/ActionBarDrawer.java:829-832 | one loop step paints rows i + 1 and i + 2 of columns 4 and 5 and leaves every other pixel |
| ActionBarDrawers.GenerateMoreImage | src/net/kivitechnologies/SupportLibrary/app/ActionBarDrawer.java:817-850 | the pressed image is the three dots in the pressed colour on transparent and the default image the same dots in the default colour |
| ActionBarDrawers.AddedToolLaidOut | src/net/kivitechnologies/SupportLibrary/app/ActionBarDrawer.java:240-253 | appending a new view keeps every tool's view in the layout with no two tools sharing one; a tool added again leaves its old view in the layout, owned by no tool |
| ActionBarDrawers.ActionBarDrawer.constructor | src/net/kivitechnologies/SupportLibrary/app/ActionBarDrawer.java:125-212 | the bar is visible with the up button INVISIBLE, the icon view showing the activity's icon while the kept icon is the up arrow's drawable, the logo kept, the subtitle, more button and progress bar hidden, no tools and no menu |
| ActionBarDrawers.ActionBarDrawer.AddTool | src/net/kivitechnologies/SupportLibrary/app/ActionBarDrawer.java:240-253 | a new view with id the number of tools so far goes at the end of the layout and the tool maps to it; a tool added again keeps its old view in the layout; nothing else changes |
| ActionBarDrawers.ActionBarDrawer.RemoveTool | src/net/kivitechnologies/SupportLibrary/app/ActionBarDrawer.java:337-344 | a present tool loses its view from the layout and from the map, the layout one shorter; an absent tool changes nothing |
| ActionBarDrawers.ActionBarDrawer.CreateContextMenu | src/net/kivitechnologies/SupportLibrary/app/ActionBarDrawer.java:260-270 | the menu is created once, empty and anchored at the more button; every call shows the more button and returns that same menu |
| ActionBarDrawers.ActionBarDrawer.OnClick | src/net/kivitechnologies/SupportLibrary/app/ActionBarDrawer.java:220-233 | the up button and the icon finish the activity; the more button shows the menu, when there is one, at its anchor and throws NullPointerException when it has none; a tool view yields its id as the position in keySet().toArray() of the tool to click, or throws IndexOutOfBounds when the id is not below the number of tools; the tools are unchanged |
| ActionBarDrawers.ClickAfterRemovalThrows | src/net/kivitechnologies/SupportLibrary/app/ActionBarDrawer.java:230 | add tool A (view id 0), add tool B (view id 1), remove A: a click on B's view asks for position 1 of a one-element key array and throws IndexOutOfBounds |
| ActionBarDrawers.ClickedTool | src/net/kivitechnologies/SupportLibrary/app/ActionBarDrawer.java:228-232 | the tool a click on a view evidently means: some tool exactly when the view is one of the tools' views, and then a tool whose view it is |
| ActionBarDrawers.ClickedToolSurvivesChanges | src/net/kivitechnologies/SupportLibrary/app/ActionBarDrawer.java:228-232 | with no two tools sharing a view, the clicked view names exactly its tool, and removing or adding another tool leaves the click on that tool |
| ActionBarDrawers.ActionBarDrawer.SetDisplayLogo | src/net/kivitechnologies/SupportLibrary/app/ActionBarDrawer.java:351-355 | the icon view shows the kept logo when it is used and the kept icon otherwise |
| ActionBarDrawers.ActionBarDrawer.SetIcon | src/net/kivitechnologies/SupportLibrary/app/ActionBarDrawer.java:386-390 | the icon is kept; while the logo is used the logo stays shown |
| ActionBarDrawers.ActionBarDrawer.SetLogo | src/net/kivitechnologies/SupportLibrary/app/ActionBarDrawer.java:399-403 | the logo is kept; while it is not used the kept icon is shown |
| ActionBarDrawers.SetLogoShowsUpArrow | src/net/kivitechnologies/SupportLibrary/app/ActionBarDrawer.java:148 | on a new bar, the first setLogo while the logo is not used replaces the activity's icon in the icon view by the up arrow |
| ActionBarDrawers.ActionBarDrawer.SetDisplayUpButton | src/net/kivitechnologies/SupportLibrary/app/ActionBarDrawer.java:362-365 | the up button becomes VISIBLE or INVISIBLE |
| ActionBarDrawers.ActionBarDrawer.SetDisplaySubtitle | src/net/kivitechnologies/SupportLibrary/app/ActionBarDrawer.java:373-377 | the subtitle becomes VISIBLE when displayed and GONE otherwise; the texts are kept |
| ActionBarDrawers.ActionBarDrawer.SetTitle | src/net/kivitechnologies/SupportLibrary/app/ActionBarDrawer.java:460-463 | only the title text changes |
| ActionBarDrawers.ActionBarDrawer.SetSubtitle | src/net/kivitechnologies/SupportLibrary/app/ActionBarDrawer.java:430-433 | only the subtitle text changes |
| ActionBarDrawers.ActionBarDrawer.SetMaxProgress | src/net/kivitechnologies/SupportLibrary/app/ActionBarDrawer.java:410-413 | the progress bar's maximum becomes the value and its progress is kept |
| ActionBarDrawers.ActionBarDrawer.SetProgress | src/net/kivitechnologies/SupportLibrary/app/ActionBarDrawer.java:420-423 | the progress bar's progress becomes the value and its maximum is kept |
| ActionBarDrawers.ActionBarDrawer.OnAnimationEnd | src/net/kivitechnologies/SupportLibrary/app/ActionBarDrawer.java:606-613 | the end of the fading animation turns a showing bar GONE and any other VISIBLE |
| FileChooserApp.StartChoosingFile | src/net/kivitechnologies/SupportLibrary/app/FileChooser.java:79-97 | a null path becomes DEFAULT_INITIAL_PATH, the style is registered once, and the intent carries the style's index, file choosing and the path |
| FileChooserApp.StartChoosingDirectory | src/net/kivitechnologies/SupportLibrary/app/FileChooser.java:99-117 | as startChoosingFile, with directory choosing |
| FileChooserApp.ActionBarColor | src/net/kivitechnologies/SupportLibrary/app/FileChooser.java:213-223 | the action bar's getColor gives the style's background for the background attribute, its item colour for the default and pressed item attributes, its text colour for the title and subtitle attributes, and white for any other attribute |
| FileChooserUtils.ActionBarColor | src/net/kivitechnologies/SupportLibrary/utils/FileChooser.java:296-308 | the older chooser's getColor gives the background for the background attribute, the item colour for the two item attributes and the text colour for every other attribute, so always one of the style's three colours |
| FileChooserApp.ColourDispatch | src/net/kivitechnologies/SupportLibrary/app/FileChooser.java:213-223 | the two choosers agree on every attribute the action bar knows; on any other attribute the newer one answers white and the older one the text colour |
| FileChooserApp.ListAdapter.constructor | src/net/kivitechnologies/SupportLibrary/app/FileChooser.java:508-537 | a new adapter has no rows and no initial directory |
| FileChooserApp.ListAdapter.Load | src/net/kivitechnologies/SupportLibrary/app/FileChooser.java:544-572 | choosing directories from a listing that holds a file throws UnsupportedOperation before anything changes (Arrays.asList is fixed-size); otherwise the listing is sorted parent first, the rows are an up row unless at DEFAULT_INITIAL_PATH followed by one row per file, and the sorted listing is returned |
| FileChooserApp.ListAdapter.ContentRows | src/net/kivitechnologies/SupportLibrary/app/FileChooser.java:565-569 | the loop adds one directory or file row per file, in order |
| FileChooserApp.ContentItemsMatchFiles | src/net/kivitechnologies/SupportLibrary/app/FileChooser.java:431-494 | one content row per file, showing that file, with a folder icon exactly for directories, never in up mode, a size exactly for files and a modification date always |
| FileChooserApp.LoadedLayout | src/net/kivitechnologies/SupportLibrary/app/FileChooser.java:560-569 | the rows start with an up row for the parent exactly when the directory is not DEFAULT_INITIAL_PATH, and row offset + k shows content k |
| FileChooserApp.DirectoryLoadKeepsDirectories | src/net/kivitechnologies/SupportLibrary/app/FileChooser.java:548-558 | a directory-choosing load that succeeds lists only directories |
| FileChooserApp.LoadedContentSorted | src/net/kivitechnologies/SupportLibrary/app/FileChooser.java:513-558 | the loaded listing is sorted by the adapter's comparator: the parent first, directories before files, each by name |
| FileChooserApp.DirectoryContentView.constructor | src/net/kivitechnologies/SupportLibrary/app/FileChooser.java:310-319 | a new content view has a fresh empty adapter, no content and not the directory mode; its current directory, which Java leaves null until load() sets it, is the given directory here, and onCreate loads the view right after constructing it (app/FileChooser.java:152-153) |
| FileChooserApp.DirectoryContentView.Load | src/net/kivitechnologies/SupportLibrary/app/FileChooser.java:321-329 | the mode and directory are set first and stay set; in directory mode a directory holding a file throws UnsupportedOperation with the content and rows unchanged; otherwise the content is the sorted listing and the rows are the up row, when there is one, and a row per file |
| FileChooserApp.DirectoryContentView.Finish | src/net/kivitechnologies/SupportLibrary/app/FileChooser.java:361-367 | the activity finishes with RESULT_OK and the file's path |
| FileChooserApp.DirectoryContentView.OnItemClick | src/net/kivitechnologies/SupportLibrary/app/FileChooser.java:331-344 | the up row loads the parent and another row opens content[position == 0 ? 0 : position - 1], throwing IndexOutOfBounds past the end; a directory row or the up row reloads in the same mode, with the new content and rows or, in directory mode when a file is present, UnsupportedOperation and the old ones; a file row finishes with the file and changes nothing else |
| FileChooserApp.DirectoryContentView.OnItemLongClick | src/net/kivitechnologies/SupportLibrary/app/FileChooser.java:346-354 | the click is always consumed; the up row offers nothing; another row offers content[position == 0 ? 0 : position - 1] or throws past the end |
| FileChooserApp.ClickOpensShownFileOnlyWithUpRow | src/net/kivitechnologies/SupportLibrary/app/FileChooser.java:338 | with an up row every other row opens the file it shows; at DEFAULT_INITIAL_PATH the rows from 1 on open the file shown one row higher and the last file cannot be opened |
| FileChooserApp.DisplayedIndexOpensShownFile | src/net/kivitechnologies/SupportLibrary/app/FileChooser.java:338 | counting the up row only when there is one, every non-up row opens the file it shows |
| FileChooserApp.ManagementToolsView.constructor | src/net/kivitechnologies/SupportLibrary/app/FileChooser.java:588-610 | the submit button is shown only when choosing a directory |
| FileChooserApp.ManagementToolsView.Finish | src/net/kivitechnologies/SupportLibrary/app/FileChooser.java:624-631 | finishing with no file reports RESULT_CANCELED and with a file RESULT_OK and its path |
| FileChooserApp.ManagementToolsView.OnClick | src/net/kivitechnologies/SupportLibrary/app/FileChooser.java:612-622 | submit finishes with the current directory, cancel with no file, any other view does nothing |
| FileChooserApp.ToolsResultCodes | src/net/kivitechnologies/SupportLibrary/app/FileChooser.java:624-631 | the result code is RESULT_CANCELED exactly when there is no file, and only then is there no path |
| FileChooserUtils.ChooseFile | src/net/kivitechnologies/SupportLibrary/utils/FileChooser.java:57-68 | the style is registered once and the intent asks for a file at the given path with the style's index |
| FileChooserUtils.ChooseDirectory | src/net/kivitechnologies/SupportLibrary/utils/FileChooser.java:70-81 | the style is registered once and the intent asks for a directory at the given path with the style's index |
| FileChooserUtils.Chooser.constructor | src/net/kivitechnologies/SupportLibrary/utils/FileChooser.java:83-151 | onCreate for an existing directory: its listing is prepared and sorted parent first, one row per entry, and the subtitle is the directory's path |
| FileChooserUtils.Chooser.Prepare | src/net/kivitechnologies/SupportLibrary/utils/FileChooser.java:200-253 | the parent's File first unless the current path is the storage path, then the directories by name when choosing a directory, otherwise every entry with directories first |
| FileChooserUtils.Chooser.SetItems | src/net/kivitechnologies/SupportLibrary/utils/FileChooser.java:437-470 | the shared list is sorted parent first in place, then one row per file in that order |
| FileChooserUtils.Chooser.Finish | src/net/kivitechnologies/SupportLibrary/utils/FileChooser.java:184-190 | the activity finishes with RESULT_OK and the path, null included |
| FileChooserUtils.Chooser.OnItemClick | src/net/kivitechnologies/SupportLibrary/utils/FileChooser.java:153-170 | a position outside the list throws and changes nothing; a directory becomes the current one, is prepared, listed and shown in the subtitle; a file finishes with its path |
| FileChooserUtils.Chooser.OnClick | src/net/kivitechnologies/SupportLibrary/utils/FileChooser.java:172-182 | OK finishes with the current directory's path, cancel with a null path, both as RESULT_OK |
| FileChooserUtils.Chooser.OnBackPressed | src/net/kivitechnologies/SupportLibrary/utils/FileChooser.java:192-198 | at the storage directory the activity closes with RESULT_CANCELED and nothing changes; elsewhere it behaves as a click on row 0: a directory there becomes the current one and is listed, a file there closes the activity with RESULT_OK and its path, and an empty list throws an index exception changing nothing |
| FileChooserUtils.DirectoriesExactly | src/net/kivitechnologies/SupportLibrary/utils/FileChooser.java:208-215 | the directory filter keeps exactly the directories of the listing, each as often as it occurs, in order |
| FileChooserUtils.PreparedUpEntry | src/net/kivitechnologies/SupportLibrary/utils/FileChooser.java:202-204 | the parent's File leads the result exactly when the current path is not the storage path, followed by the kept entries |
| FileChooserUtils.PreparedDirectoryMode | src/net/kivitechnologies/SupportLibrary/utils/FileChooser.java:208-224 | choosing a directory keeps exactly the directories, ordered by name |
| FileChooserUtils.PreparedFileMode | src/net/kivitechnologies/SupportLibrary/utils/FileChooser.java:225-248 | choosing a file keeps every entry, directories before files, each group ordered by name |
| FileChooserUtils.ItemsMatchFiles | src/net/kivitechnologies/SupportLibrary/utils/FileChooser.java:484-550 | one row per file in list order: the up icon exactly for a directory at the parent's path, the file icon and a size exactly for files, a date for every row but the parent |
| FileChooserUtils.BackGoesToParent | src/net/kivitechnologies/SupportLibrary/utils/FileChooser.java:192-198 | away from the storage directory, row 0 after sorting is the parent directory, so back goes up one level |
| FileChooserUtils.KeptFromListing | src/net/kivitechnologies/SupportLibrary/utils/FileChooser.java:200-253 | every entry prepare keeps comes from the listing |
| Sorting.SortBy | src/net/kivitechnologies/SupportLibrary/app/FileChooser.java:558 | Collections.sort leaves a permutation of the list: the same elements, as often each |
| Sorting.Insert | src/net/kivitechnologies/SupportLibrary/app/FileChooser.java:558 | one insertion step of the stable sort adds exactly the element to the sorted part |
| Sorting.SortBySorted | src/net/kivitechnologies/SupportLibrary/app/FileChooser.java:558 | with a comparator that orders its domain, the sorted list is in comparator order |
| Files.NameOrderConsistent | src/net/kivitechnologies/SupportLibrary/utils/FileChooser.java:217-223 | comparing names with String.compareTo orders files |
| Files.DirectoriesFirstConsistent | src/net/kivitechnologies/SupportLibrary/utils/FileChooser.java:228-247 | the directories-first comparator orders files |
| Files.ParentFirstConsistent | src/net/kivitechnologies/SupportLibrary/app/FileChooser.java:513-536 | the parent-first comparator of the list adapters orders files |
| Files.DirectoriesFirstOrder | src/net/kivitechnologies/SupportLibrary/utils/FileChooser.java:228-247 | in a listing sorted directories first, no file precedes a directory and each kind is in name order |
| Files.ParentAtFront | src/net/kivitechnologies/SupportLibrary/utils/FileChooser.java:439-464 | in a listing sorted parent first, an entry with the parent's path is at the front |
| Files.IndexOf | src/net/kivitechnologies/SupportLibrary/app/FileChooser.java:92 | List.indexOf is the first index holding the style, -1 exactly when it is absent |
| Files.StyleRegistry.constructor | src/net/kivitechnologies/SupportLibrary/app/FileChooser.java:48 | the static styles list starts empty |
| Files.StyleRegistry.Register | src/net/kivitechnologies/SupportLibrary/app/FileChooser.java:88-92 | the style is appended only when absent, and the index returned is where it now is |
| Files.RegisteredIndex | src/net/kivitechnologies/SupportLibrary/app/FileChooser.java:88-92 | registering finds the style at a valid index, at the end only when new; styles already present keep their index; the list stays free of duplicates; registering again changes nothing |
| Files.Host.Finish | src/net/kivitechnologies/SupportLibrary/app/FileChooser.java:365-366 | setResult followed by finish records the code and the path |
| HardwareInfo.DeviceModelName | src/net/kivitechnologies/SupportLibrary/utils/HardwareUtils.java:78-81 | the model name is manufacturer, space, model, so a manufacturer without a space is its first space-separated word and the model's words follow |
| HardwareInfo.AndroidVersion | src/net/kivitechnologies/SupportLibrary/utils/HardwareUtils.java:86-89 | the version string starts with "Android " and the release follows it |
| HardwareInfo.CpuType | src/net/kivitechnologies/SupportLibrary/utils/HardwareUtils.java:97-100 | the CPU type joins the two ABIs with '/', so two ABIs without '/' are the two pieces of a split on it |
| HardwareInfo.CoreNameOf | src/net/kivitechnologies/SupportLibrary/utils/HardwareUtils.java:46 | "cpu" followed by the decimal form of n passes the cpu[0-9]+ filter exactly when n is not negative |
| HardwareInfo.OtherEntriesAreNotCores | src/net/kivitechnologies/SupportLibrary/utils/HardwareUtils.java:46 | cpu, cpufreq, cpuidle, online and possible do not pass the filter |
| HardwareInfo.CoreEntries | src/net/kivitechnologies/SupportLibrary/utils/HardwareUtils.java:190 | listFiles with the filter keeps exactly the entries whose names pass it, and no more entries than the listing has |
| HardwareInfo.CountsEachCore | src/net/kivitechnologies/SupportLibrary/utils/HardwareUtils.java:186-196 | a listing of cpu0 to cpu(k-1) plus entries that do not pass the filter counts exactly k cores |
| HardwareInfo.SecondFieldOf | src/net/kivitechnologies/SupportLibrary/utils/HardwareUtils.java:157-159 | split(":")[1] of a "key:value" line is the value, and throws an index exception when nothing follows the colon |
| HardwareInfo.TextLines | src/net/kivitechnologies/SupportLibrary/utils/HardwareUtils.java:153 | the returned text, split at newlines, gives back the lines read, in order, followed by one empty piece |
| HardwareInfo.ScanStopsAtFailure | src/net/kivitechnologies/SupportLibrary/utils/HardwareUtils.java:146-165 | once a line has thrown out of the loop, no later line changes the fields |
| HardwareInfo.StepFields | src/net/kivitechnologies/SupportLibrary/utils/HardwareUtils.java:155-159 | a line whose trimmed form starts with Features or flags sets CPUFeatures to its second field, one starting with Hardware or model name (and not a features line) sets CPUName, and each line leaves the other field unchanged |
| HardwareInfo.LastFeaturesLineWins | src/net/kivitechnologies/SupportLibrary/utils/HardwareUtils.java:156-157 | after a read that ran to the end, CPUFeatures holds the second field of the last features line |
| HardwareInfo.FeaturesKeptWithoutLine | src/net/kivitechnologies/SupportLibrary/utils/HardwareUtils.java:156-157 | after a read that ran to the end with no features line, CPUFeatures is unchanged |
| HardwareInfo.LastNameLineWins | src/net/kivitechnologies/SupportLibrary/utils/HardwareUtils.java:158-159 | after a read that ran to the end, CPUName holds the second field of the last name line |
| HardwareInfo.NameKeptWithoutLine | src/net/kivitechnologies/SupportLibrary/utils/HardwareUtils.java:158-159 | after a read that ran to the end with no name line, CPUName is unchanged |
| HardwareInfo.HardwareUtils.constructor | src/net/kivitechnologies/SupportLibrary/utils/HardwareUtils.java:40-53 | the static initialiser sets the core count to -1 and both CPU strings to the "unknown" literal |
| HardwareInfo.HardwareUtils.ReadCpuInfo | src/net/kivitechnologies/SupportLibrary/utils/HardwareUtils.java:141-179 | an unreadable file gives "" and changes nothing; otherwise the fields are what the line-by-line scan makes of them, and the result is every line followed by a newline, or the index exception of the first line without a second field, with the fields as the earlier lines left them |
| HardwareInfo.HardwareUtils.GetCpuName | src/net/kivitechnologies/SupportLibrary/utils/HardwareUtils.java:105-111 | the file is read only while CPUName is still the "unknown" literal; a name once read is returned unchanged without reading again |
| HardwareInfo.HardwareUtils.GetCpuFeatures | src/net/kivitechnologies/SupportLibrary/utils/HardwareUtils.java:116-122 | the file is read only while CPUFeatures is still the "unknown" literal; features once read are returned unchanged without reading again |
| HardwareInfo.HardwareUtils.CountCpuCores | src/net/kivitechnologies/SupportLibrary/utils/HardwareUtils.java:186-196 | the count is the number of filtered entries of the directory, or max(1, availableProcessors()) when the directory cannot be listed |
| HardwareInfo.HardwareUtils.GetCoresCount | src/net/kivitechnologies/SupportLibrary/utils/HardwareUtils.java:127-133 | counts only while the count is -1; the result is never -1, and a later call returns the same count |
| RadialGradients.DoubledSize | src/net/kivitechnologies/SupportLibrary/graphics/RadialGradient.java:84-87 | the doubled int size of a Math.abs side is positive exactly when the side is positive and below 2^30, and is then twice the side |
| RadialGradients.PieceSize | src/net/kivitechnologies/SupportLibrary/graphics/RadialGradient.java:84-92 | whether draw succeeds depends only on the doubled int sizes of the bounds; the cut never falls outside the doubled bitmap |
| RadialGradients.PieceOfBounds | src/net/kivitechnologies/SupportLibrary/graphics/RadialGradient.java:80-93 | for bounds without int overflow, draw succeeds exactly when both sides are positive and below 2^30; the bitmap is then twice the bounds, the cut is the chosen quadrant and as large as the bounds, and it is drawn at the bounds' top left |
| RadialGradients.CentreOppositePart | src/net/kivitechnologies/SupportLibrary/graphics/RadialGradient.java:53-93 | each part puts the centre of the gradient on the corner of the bounds opposite the part's name, so the arc bulges towards the named corner |
| RadialGradients.RadialGradient.constructor | src/net/kivitechnologies/SupportLibrary/graphics/RadialGradient.java:39-46 | keeps the colours and the radius; the cut starts at the top-left quadrant and the bounds are empty |
| RadialGradients.RadialGradient.SetCurrentPart | src/net/kivitechnologies/SupportLibrary/graphics/RadialGradient.java:53-75 | sets startX and startY to the quadrant of the part, 0 or one half each, and keeps the bounds |
| RadialGradients.RadialGradient.SetBounds | src/net/kivitechnologies/SupportLibrary/graphics/ShadowDrawable.java:87 | the bounds become the given rectangle and the chosen part is kept |
| RadialGradients.RadialGradient.Draw | src/net/kivitechnologies/SupportLibrary/graphics/RadialGradient.java:78-94 | draws the piece of the old bounds for the current part, or throws IllegalArgumentException; a successful draw leaves the bounds covering the doubled bitmap at (0, 0) |
| ShadowDrawables.ShadowColors | src/net/kivitechnologies/SupportLibrary/graphics/ShadowDrawable.java:66 | the gradient has two colours and starts with the shadow colour |
| ShadowDrawables.ShadowFadesOut | src/net/kivitechnologies/SupportLibrary/graphics/ShadowDrawable.java:66 | the second colour is the shadow colour with alpha 0 and the same red, green and blue |
| ShadowDrawables.FrameTiled | src/net/kivitechnologies/SupportLibrary/graphics/ShadowDrawable.java:84-113 | on a canvas at least twice the width each way, the eight parts cover every pixel within width of the edge exactly once and no pixel inside |
| ShadowDrawables.CornersRoundTheContent | src/net/kivitechnologies/SupportLibrary/graphics/ShadowDrawable.java:86-109 | on such a canvas every corner can be drawn, and the centre of its gradient lies on the matching corner of the content inside the frame |
| ShadowDrawables.CornerFitsIff | src/net/kivitechnologies/SupportLibrary/graphics/ShadowDrawable.java:86-88 | the first corner can be drawn exactly when the width is not 0 and its magnitude is below 2^30 |
| ShadowDrawables.CornerSpans | src/net/kivitechnologies/SupportLibrary/graphics/ShadowDrawable.java:87-108 | in int arithmetic every corner's bounds are as wide and as high as the first corner's |
| ShadowDrawables.CornerLikeFirst | src/net/kivitechnologies/SupportLibrary/graphics/ShadowDrawable.java:86-109 | each corner can be drawn exactly when the first one can |
| ShadowDrawables.ShadowDrawable.constructor | src/net/kivitechnologies/SupportLibrary/graphics/ShadowDrawable.java:62-81 | the gradients run from the shadow colour to transparent, each border outwards from the content, and the corners get the same colours and the width as radius |
| ShadowDrawables.ShadowDrawable.Grey | src/net/kivitechnologies/SupportLibrary/graphics/ShadowDrawable.java:38-41 | the same, with the opaque grey #777777 as shadow colour |
| ShadowDrawables.ShadowDrawable.Draw | src/net/kivitechnologies/SupportLibrary/graphics/ShadowDrawable.java:84-113 | draws the eight parts in order, or throws IllegalArgumentException when the first corner cannot be drawn; every border keeps the bounds it was drawn in, and the corner gradient is left on BOTTOM_LEFT |
| ShadowDrawables.ShadowDrawable.DrawCorner | src/net/kivitechnologies/SupportLibrary/graphics/ShadowDrawable.java:86-88 | one corner draws exactly when the first corner can, and the corner gradient is left on that part |
| ShadowDrawables.ShadowDrawable.SetAlpha | src/net/kivitechnologies/SupportLibrary/graphics/ShadowDrawable.java:125-128 | changes nothing |
| ShadowDrawables.ShadowDrawable.SetColorFilter | src/net/kivitechnologies/SupportLibrary/graphics/ShadowDrawable.java:134-137 | changes nothing |
| JavaLang.Wrap32 | src/net/kivitechnologies/SupportLibrary/graphics/RadialGradient.java:84 | 32-bit int arithmetic: a result that fits in an int is exact |
| JavaLang.Wrap32Cancel | src/net/kivitechnologies/SupportLibrary/graphics/ShadowDrawable.java:94 | canvas.getWidth() minus (canvas.getWidth() - width) is -width in int arithmetic, overflow or not |
| JavaLang.Utf16Length | src/net/kivitechnologies/SupportLibrary/view/TextField.java:60 | String.length() counts UTF-16 code units: between one and two per character, and exactly one per character when none lies above U+FFFF |
| JavaLang.Utf16LengthOfPair | src/net/kivitechnologies/SupportLibrary/view/TextField.java:71 | a character above U+FFFF, a surrogate pair, adds two to String.length() |
| JavaLang.JavaDiv | src/net/kivitechnologies/SupportLibrary/app/ActionBar.java:362 | int division rounds toward zero: it equals floor division on non-negative operands and is never negative when the signs agree |
| JavaLang.JavaAbs | src/net/kivitechnologies/SupportLibrary/graphics/RadialGradient.java:84-85 | Math.abs(int) is the magnitude, except that Integer.MIN_VALUE comes back unchanged |
| JavaLang.SplitKeyValue | src/net/kivitechnologies/SupportLibrary/utils/HardwareUtils.java:157 | split of key, separator, value gives key and value, or the key alone when the value is empty |
| JavaLang.JavaSplitCorners | src/net/kivitechnologies/SupportLibrary/view/TextField.java:77 | split of "" gives one empty piece, a string made only of separators gives none, and a string without the separator gives itself |
| JavaLang.JavaSplitEmptyIff | src/net/kivitechnologies/SupportLibrary/view/TextField.java:77 | split gives no piece exactly when the string is non-empty and made only of separators |
| JavaLang.CompareToProperties | src/net/kivitechnologies/SupportLibrary/utils/FileChooser.java:221 | String.compareTo is zero exactly on equal strings, and swapping its arguments negates it |
| JavaLang.CompareToTransitive | src/net/kivitechnologies/SupportLibrary/utils/FileChooser.java:221 | String.compareTo orders strings transitively |
| Views.Bitmap.constructor | src/net/kivitechnologies/SupportLibrary/app/ActionBarDrawer.java:821 | createBitmap gives a bitmap of the given size whose every pixel is transparent |
| Views.Bitmap.SetPixel | src/net/kivitechnologies/SupportLibrary/app/ActionBarDrawer.java:829 | setPixel outside the bitmap throws IllegalArgumentException and changes nothing; inside it changes that one pixel and no other |
| Views.Without | src/net/kivitechnologies/SupportLibrary/app/ActionBarDrawer.java:341 | removeView leaves exactly the other views, and no more than there were |
| Views.WithoutNoRepeats | src/net/kivitechnologies/SupportLibrary/app/ActionBarDrawer.java:341 | removing a view from a layout without repeats keeps it without repeats and one view shorter when the view was in it |

## Left out

- Building views and layouts, LayoutParams, typefaces, text colours, dp conversion, PopupWindow and dialogs, Toasts, and painting on a Canvas: these are Android UI. The model keeps only the fields and decisions the widgets base on them.
- PromptDialog, MarqueeTextView, ThreadUtils, FilesUtils, ScreenUtils, ResourcesUtils, ResourcesDelegate and Typeface are not part of this model. They hold UI setters, threads, filesystem I/O, floating-point display metrics, or thin wrappers over Android APIs.
- Floating point is left out: the HSV functions of ColorUtils, MathUtils.round(double, int) and log, the float and double getters and putters of SavingUtils, TextField.onMeasure, the float-valued ShadowDrawable constructor (shadowValue), NinePatchBuilder.setPadding, and the status-bar colour of ActionBarDrawer.
- I/O and the platform become parameters: the preferences store (a map), commit(), directory listings and File records, /proc/cpuinfo (its lines, or None when it cannot be opened), Build's strings, Runtime.availableProcessors(), and Color.parseColor (only the text prepared for it is modelled).
- Reading /proc/cpuinfo can fail with an IOException halfway through, and the reader is left unclosed when a line throws. Neither is modelled.
- File.listFiles() and getParentFile() returning null are not modelled, because the listing is a total function.
- Colors: the 8-bit channels and their packing are an assumption taken from Android's documentation of Color.argb. Channel values outside 0..255 are excluded by type.
- MathUtils.Round: requires that the loop ends, which it does not for base 0 and a positive number, for base 1 or -1 and a number of at least 2 (see Findings), while for a base of at least 2 and a number above the largest power that fits in an int it ends only if a wrapped-around product happens to reach the number (for base 2 the product becomes -2^31 and then stays 0, so it never does). The model states what the method returns whenever it returns.
- NinePatch: the padding rectangle passed to NinePatchDrawable, build(int resId) (a resource lookup), and the reflection in the container branch of build(Drawable) are left out. chunk.hashCode() is a parameter.
- Lifecycle: getActionBar (an SDK-level check), the findViewById casts, and the startActivity overloads other than the one modelled are left out. The 20 ms Handler delay is a pending-check step, not time.
- Menus: the colour and typeface getters and setters, the window size and padding, the resource-id overloads, and ItemsAdapter.getView are left out.
- ActionBars: Style.obtain (a TypedArray), getHeight, the background and divider drawables, generateUpImage, the resource-id setTitle and setSubtitle, ToolView's update and onClick (the tool's own callbacks), and onAnimationRepeat are left out. hide() and show() only start the animation, whose end is modelled.
- ActionBarDrawers: show(), hide(), invalidateTools, loadDefaultDrawables, getProgressDrawable and generateUpImage are left out.
- ActionBarDrawers.ActionBarDrawer.OnClick: returns the position of keySet().toArray() it reads instead of calling the tool there. A HashMap's key order is not modelled, so which tool sits at that position, even when the position is in range, is not stated (see Findings for the position that is out of range).
- ActionBars.ActionBar.constructor: models the constructor as evidently intended, with the drawer's dot images on the more button. As written it throws at app/ActionBar.java:475, because generateMoreDrawable paints outside its bitmap (see Findings).
- Menus.Menu.ShowAt: a null anchor is taken to throw, as Android's PopupWindow.showAsDropDown dereferences it. That method returns early without reading the anchor while the window is already showing, and whether it is showing depends on touches outside the window, which are not modelled.
- NinePatch.NinePatchBuilder.PrepareChunk: with an allocated padding array, the four values are taken as already scaled to the bitmap, because the float scaling is left out. When the buffer is too small, the model returns BufferOverflowException without performing the puts before the failing one; the buffer is local, so nothing else sees them.
- NinePatch.NinePatchBuilder.BuildBitmap: an allocated padding array holds the four values already scaled to the bitmap, because prepareChunk's float scaling is left out. The padding rectangle of line 171, which dereferences the array again, is not modelled. Build and Rasterise reach it through BuildBitmap.
- NinePatch.NinePatchBuilder.Reset: with an allocated padding array, zeroing the fractions is modelled as zeroing the scaled values. setPadding (floating point, left out) dereferences the null array as well.
- NinePatch.NinePatchBuilder.Build: a drawable whose bitmap is not cached reaches BuildBitmap, so as written it throws what prepareChunk throws: NullPointerException (the padding field is None), or a capacity failure first for masks too large for an int capacity. The Ok result for an allocated padding array is the evidently intended behaviour, and the scaling and the padding rectangle are left out as for BuildBitmap.
- NinePatch.NinePatchBuilder.Rasterise: the bitmap it draws is a new object, which the identity-keyed cache cannot hold yet, so as written it always reaches the failure of prepareChunk in BuildBitmap: NullPointerException whenever the chunk size fits in an int. The model does not track which bitmaps exist, so its contract also states the cached case. The Ok result for an allocated padding array is the evidently intended behaviour, with the same omissions as BuildBitmap.
- Saving.SavingUtils.GetArray: split("|") is taken as in Java 8 and Android API 24 and later, where the zero-width match at index 0 gives no leading empty piece. Earlier Android versions give a leading "" there, which parseInt would reject. The split cuts between UTF-16 code units, and the model cuts between characters: a stored text holding a character above U+FFFF gives Java one more piece per such character, each a lone surrogate, which a Dafny string cannot hold. The model's arrays are then shorter.
- Saving.SavingUtils.GetMatrix: reads piece i * x + j of the same split, so for a stored text holding a character above U+FFFF the model indexes characters where Java indexes UTF-16 code units. For a text of one such character read as a 1 x 2 boolean matrix, Java gives [false, false] and the model throws ArrayIndexOutOfBoundsException.
- Colors.PreparedHex: the length tests count characters, while String.length() counts UTF-16 code units. They differ only for a text holding a character above U+FFFF, for which Java's seven-character form would split a surrogate pair.
- Saving.ParsePiece: only the ASCII digits 0 to 9 parse as an int. Integer.parseInt also accepts a single digit from the other Unicode digit ranges, which the model reports as a NumberFormatException.
- Sorting.SortBy: the order is that of an insertion sort. For a comparator breaking the Comparator contract, with two elements that each compare below the other (ParentFirst on two entries whose path is the parent path), the TimSort of Collections.sort may order them otherwise.
- JavaLang.CompareTo: compares characters as Unicode scalar values, while String.compareTo compares UTF-16 code units. The two orders differ only between a character above U+FFFF and one from U+E000 to U+FFFF.
- FileChooserApp: onCreate and the UI appliers, the Toasts, the new-file and new-directory tools, the file options (rename, move, delete), mkdirs, and the size and date text of a row are I/O or UI and are left out.
- FileChooserUtils: the finish() of onCreate on a missing directory, the name-input dialog tools, the ActionBarApplier, and the last-modified date formatting are left out.
- ShadowDrawables: getOpacity asks a platform GradientDrawable and is left out. So is the painting of the gradients themselves; the model records the bounds each part is drawn in.
- RadialGradients: the crop offsets are (int)(0.5f * size) computed in float. They are modelled exactly, which differs from the float result only for sizes above 2^24.

## Findings

| source | as written | input that shows it | evidently intended | confidence | as-written member | corrected member |
|---|---|---|---|---|---|---|
| src/net/kivitechnologies/SupportLibrary/app/FileChooser.java:338 | a click at position p opens content index (p == 0 ? 0 : p - 1), even when the listing has no up row | at DEFAULT_INITIAL_PATH with two or more files, row 1 opens file 0 and the last file can never be opened | position p opens the file shown in row p: p - 1 with an up row, p without one | not executed | FileChooserApp.ClickOpensShownFileOnlyWithUpRow | FileChooserApp.DisplayedIndexOpensShownFile |
| src/net/kivitechnologies/SupportLibrary/app/ActionBar.java:711-719 | the loops step i by 1 up to 8 and paint rows i + 1 and i + 2 of a 10 x 10 bitmap | any ActionBar: at i = 8, setPixel(4, 10) throws IllegalArgumentException, and the constructor calls it | three 2 x 2 dots with i stepping by 3, as ActionBarDrawer.java:827-844 paints them | not executed | ActionBars.GenerateMoreDrawable | ActionBarDrawers.MoreDotsInside |
| src/net/kivitechnologies/SupportLibrary/app/ActionBar.java:362 | the bar width is width * (current / max), dividing first in int arithmetic | width 100, current 50, max 100 draws a width of 0 | current * width / max, as ActionBarDrawer.java:776 computes it | not executed | ActionBars.ProgressViewAllOrNothing | ActionBarDrawers.ProgressWidthBounds |
| src/net/kivitechnologies/SupportLibrary/utils/MathUtils.java:23-24 | the loop multiplies target by base until it reaches number | round(2, 1): target stays 1 and the loop never ends; so does round(1, 0) | the power of base nearest number, which is 1 for base 1 | not executed | MathUtils.NeverStops | MathUtils.RoundUnitBase |
| src/net/kivitechnologies/SupportLibrary/app/ActionBarDrawer.java:230 | a tool click reads keySet().toArray()[view.getId()], where the id is the number of tools when the tool was added | add tool A, add tool B, remove A, click B: position 1 of a one-element array throws ArrayIndexOutOfBoundsException | the click reaches the tool whose view was clicked | not executed | ActionBarDrawers.ClickAfterRemovalThrows | ActionBarDrawers.ClickedToolSurvivesChanges |
| src/net/kivitechnologies/SupportLibrary/graphics/NinePatchBuilder.java:45 | the padding array is declared but never allocated, yet prepareChunk reads it (:134) and reset writes it (:236) | any new builder: build(bitmap) of a bitmap not in the cache throws NullPointerException, and reset() throws after clearing the masks | a four-element padding array allocated with the builder, zero until set | not executed | NinePatch.NewBuilderCannotBuild | NinePatch.ChunkReadsBack |
