# Platform classifier of the semrel Gradle plugin

`PlatformHelper` tells the plugin which operating-system family and which
CPU architecture the build runs on, so that it can pick a matching
platform-specific binary. It answers with short tags:

- **platform**: `"win"`, `"linux"`, `"darwin"`, or unknown (Java `null`,
  here `None`). The lower-cased `os.name` property is tested for `"win"`,
  then for Unix (`"nix"` or `"nux"` anywhere, or a first `"aix"` after
  index 0), then for `"mac"`. The first test that holds decides.
- **architecture**: `"x64"` when the lower-cased `os.arch` property contains
  `"64"`. Otherwise a failure when it is exactly `"arm"`, and `"x86"` for
  anything else.

The model has two modules.

- `JavaString` (`java_string.dfy`) holds the string operations the classifier
  uses. `IndexOf` returns the first occurrence or -1, as Java's
  `String.indexOf` does. `Contains` is `IndexOf(..) >= 0`, as in Java.
  `Lower` is ASCII lower-casing. A specification predicate `OccursAt(s, sub, i)`
  says that `sub` sits in `s` at index `i`. The lemmas prove `IndexOf` and
  `Contains` correct against it.
- `PlatformHelper` (`platform_helper.dfy`) holds the classifiers, as pure
  functions. The two system properties are string parameters:
  `osName` for `os.name` and `osArch` for `os.arch`. The static `OS` field
  is the function `Os(osName)`, the lower-cased property. The Java `null`
  becomes `Option.None`. The `RuntimeException` of `getArch` becomes
  `Result.Err(UnsupportedArch(arch))`, which carries the lower-cased
  architecture the message quotes.

The tests are tied to occurrences (`exists i :: OccursAt(..)`) by the
ensures of `IsWindows`, `IsMac` and `GetArch`, and by the lemma `UnixRule`
for `IsUnix`, whose own body keeps the source's `indexOf` comparisons.
`GetPlatform`'s ensures are stated in terms of `IsWindows`, `IsUnix` and
`IsMac`. The `isUnix` asymmetry is stated exactly: a first `"aix"`
at index 0 does not count, even when `"aix"` occurs again later
(`AixAtStartIsNotUnix`, `AixTwiceIsNotUnix`). One consequence: the name
`"AIX"`, which the JVM reports on AIX, is classified as unknown
(`AixNameIsUnknown`).

The two properties are read at different times. The `OS` field is set once,
when the class is initialised (`PlatformHelper.java` line 4), so `isWindows`, `isMac`, `isUnix`
and `getPlatform` keep their answer even if `os.name` changes later.
`getArch` reads `os.arch` on every call (line 26), so two calls can disagree
if `System.setProperty` changes it in between. The model takes both values
as parameters of each call.

## Model

| member | source | states |
|---|---|---|
| JavaString.RegionMatchesOccurs | src/main/java/de/illjut/gradle/semrel/PlatformHelper.java:6 | comparing `sub` with `s` character by character from index `from` succeeds exactly when `sub` occurs at `from` |
| JavaString.IndexOfFromFirst | src/main/java/de/illjut/gradle/semrel/PlatformHelper.java:6 | about the function `IndexOfFrom`: a search from `from` returns an occurrence at or after `from` with none between `from` and it, or -1 exactly when no occurrence lies at or after `from` |
| JavaString.IndexOfFirst | src/main/java/de/illjut/gradle/semrel/PlatformHelper.java:5-15 | about the function `IndexOf`: `indexOf` returns the first occurrence (none earlier), or -1 exactly when `sub` occurs nowhere |
| JavaString.Contains | src/main/java/de/illjut/gradle/semrel/PlatformHelper.java:28 | `contains` holds exactly when `sub` occurs at some index |
| JavaString.IndexOfPositive | src/main/java/de/illjut/gradle/semrel/PlatformHelper.java:14 | `indexOf(..) > 0` holds exactly when `sub` occurs somewhere but not at index 0 |
| JavaString.LowerChar | src/main/java/de/illjut/gradle/semrel/PlatformHelper.java:4 | folding one character never yields an upper-case ASCII letter, keeps every other character, and maps `A`..`Z` to `a`..`z` |
| JavaString.LowerAt | src/main/java/de/illjut/gradle/semrel/PlatformHelper.java:26 | about the function `Lower`: lower-casing keeps the length, folds each character in place and leaves no upper-case letter |
| JavaString.LowerPointwise | src/main/java/de/illjut/gradle/semrel/PlatformHelper.java:26 | a string that folds another character by character, at equal length, is its lower-cased form |
| JavaString.LowerOfLower | src/main/java/de/illjut/gradle/semrel/PlatformHelper.java:26 | a string with no upper-case letter is its own lower-cased form |
| JavaString.LowerIdempotent | src/main/java/de/illjut/gradle/semrel/PlatformHelper.java:4 | lower-casing twice is lower-casing once |
| PlatformHelper.Os | src/main/java/de/illjut/gradle/semrel/PlatformHelper.java:4 | the `OS` field has the length of `os.name`, holds at each index the folded character of `os.name` there, and holds no upper-case letter |
| PlatformHelper.IsWindows | src/main/java/de/illjut/gradle/semrel/PlatformHelper.java:5-7 | `isWindows` holds exactly when `"win"` occurs in the lower-cased OS name |
| PlatformHelper.IsMac | src/main/java/de/illjut/gradle/semrel/PlatformHelper.java:9-11 | `isMac` holds exactly when `"mac"` occurs in the lower-cased OS name |
| PlatformHelper.UnixRule | src/main/java/de/illjut/gradle/semrel/PlatformHelper.java:13-15 | about the function `IsUnix`: `isUnix` holds exactly when `"nix"` or `"nux"` occurs anywhere, or `"aix"` occurs but not at index 0 |
| PlatformHelper.GetPlatform | src/main/java/de/illjut/gradle/semrel/PlatformHelper.java:17-23 | the result is one of `"win"`, `"linux"`, `"darwin"` or unknown: `"win"` exactly when `isWindows`; `"linux"` exactly when not `isWindows` and `isUnix`; `"darwin"` exactly when only `isMac` holds; unknown exactly when all three tests fail |
| PlatformHelper.GetArch | src/main/java/de/illjut/gradle/semrel/PlatformHelper.java:25-37 | containing `"64"` gives `"x64"`; the call fails exactly when the lower-cased name is `"arm"`, with that name in the error; a success is `"x64"` or `"x86"`; `"x86"` exactly when there is no `"64"` and the name is not `"arm"` |
| PlatformHelper.WindowsWins | src/main/java/de/illjut/gradle/semrel/PlatformHelper.java:18 | an OS name containing `"win"` is `"win"`, whatever else it contains |
| PlatformHelper.DarwinNeedsMac | src/main/java/de/illjut/gradle/semrel/PlatformHelper.java:17-20 | `"darwin"` implies `"mac"` occurs, `"win"`, `"nix"` and `"nux"` do not, and any `"aix"` has an occurrence at index 0 |
| PlatformHelper.AixAtStartIsNotUnix | src/main/java/de/illjut/gradle/semrel/PlatformHelper.java:14 | a name starting with `"aix"` and holding no `"nix"` or `"nux"` is not Unix, whatever follows |
| PlatformHelper.SixtyFourIsX64 | src/main/java/de/illjut/gradle/semrel/PlatformHelper.java:28-30 | an architecture containing `"64"` is `"x64"` and never fails |
| PlatformHelper.CaseInsensitive | src/main/java/de/illjut/gradle/semrel/PlatformHelper.java:4-26 | inputs with the same lower-cased form get the same answers from all five classifiers |
| PlatformHelper.LowerFirst | src/main/java/de/illjut/gradle/semrel/PlatformHelper.java:4-26 | lower-casing an input first changes neither the platform nor the architecture |
| PlatformHelper.Windows10IsWin | src/main/java/de/illjut/gradle/semrel/PlatformHelper.java:18 | every spelling of `"Windows 10"` is `"win"` |
| PlatformHelper.Win32IsWin | src/main/java/de/illjut/gradle/semrel/PlatformHelper.java:18 | every spelling of `"win32"` is `"win"` |
| PlatformHelper.MixedCaseWin32 | src/main/java/de/illjut/gradle/semrel/PlatformHelper.java:4-18 | `"WiN32"` and `"win32"` are both `"win"` |
| PlatformHelper.MacOsXIsDarwin | src/main/java/de/illjut/gradle/semrel/PlatformHelper.java:17-20 | every spelling of `"Mac OS X"` fails the Windows and Unix tests and is `"darwin"` |
| PlatformHelper.LinuxIsLinux | src/main/java/de/illjut/gradle/semrel/PlatformHelper.java:17-19 | every spelling of `"Linux"` is `"linux"` |
| PlatformHelper.SunOsIsUnknown | src/main/java/de/illjut/gradle/semrel/PlatformHelper.java:17-22 | every spelling of `"SunOS"` is unknown |
| PlatformHelper.AixIsUnknown | src/main/java/de/illjut/gradle/semrel/PlatformHelper.java:13-22 | every spelling of `"aix"` fails all three tests and is unknown |
| PlatformHelper.AixTwiceIsNotUnix | src/main/java/de/illjut/gradle/semrel/PlatformHelper.java:14 | `"aix aix"` has `"aix"` at index 4 and is still not Unix |
| PlatformHelper.IbmAixIsLinux | src/main/java/de/illjut/gradle/semrel/PlatformHelper.java:14-19 | every spelling of `"IBM AIX"`, whose first `"aix"` is at index 4, is `"linux"` |
| PlatformHelper.AixNameIsUnknown | src/main/java/de/illjut/gradle/semrel/PlatformHelper.java:4-22 | the OS name `"AIX"` is unknown |
| PlatformHelper.SixtyFourBitNamesAreX64 | src/main/java/de/illjut/gradle/semrel/PlatformHelper.java:28-30 | every spelling of `"amd64"`, `"x86_64"` and `"aarch64"` is `"x64"` |
| PlatformHelper.OtherNamesAreX86 | src/main/java/de/illjut/gradle/semrel/PlatformHelper.java:32-36 | every spelling of `"i386"` and `"armv7l"` is `"x86"` |
| PlatformHelper.ArmIsRefused | src/main/java/de/illjut/gradle/semrel/PlatformHelper.java:32-34 | every spelling of `"arm"` fails with the error carrying `"arm"` |
| PlatformHelper.MixedCaseArm | src/main/java/de/illjut/gradle/semrel/PlatformHelper.java:26-34 | `"ARM"` fails exactly as `"arm"` does |

## Left out

- Reading `os.name` and `os.arch` with `System.getProperty` is left out because it reads the environment. Both values are parameters instead, and a missing property, which makes Java throw a `NullPointerException`, is not modelled.
- The one-time initialisation of the static `OS` field at class-loading time is left out. `Os(osName)` gives its value.
- Both property values are parameters of each call, so the model captures neither that `os.name` is read only once (a later change is not seen by `isWindows`, `isMac`, `isUnix` or `getPlatform`) nor that a change of `os.arch` between two `getArch` calls changes its answer.
- `toLowerCase` folds only ASCII letters here. Java's folding depends on the default locale and covers non-ASCII letters too. In a Turkish locale, for instance, `"WINDOWS"` lower-cases to a dotless `ı`, so the `"win"` test fails there. The model does not capture that.
- Strings are sequences of Dafny characters, not Java's UTF-16 code units. A name with surrogate pairs can therefore index differently.
- `getArch` throws a `RuntimeException` with the message `"Unsupported architecture: " + result`. The model keeps only the lower-cased architecture as the error value, and leaves out the exception type and the message text.
- `IndexOfFrom` models the search only as `indexOf(str)` uses it, starting at index 0 or later within the string. Java's `indexOf(str, fromIndex)` with a `fromIndex` past the end of the string is not modelled.
- `docs/conf.py` is Sphinx documentation configuration with no program logic. It is not part of this model.
