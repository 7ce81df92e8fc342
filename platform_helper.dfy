/**
  The host-platform classifier of the Gradle plugin: it maps the JVM's
  `os.name` property to a platform tag ("win", "linux", "darwin" or unknown)
  and its `os.arch` property to an architecture tag ("x64" or "x86"), refusing
  the bare "arm" architecture. The two property values are parameters here;
  both are lower-cased before any test, as the classifier does.
 */
module PlatformHelper {
  import opened JavaString

  datatype Option<+T> = None | Some(value: T)

  datatype Result<+T, +E> = Ok(value: T) | Err(error: E)

  /** The failure `getArch` raises; it carries the lower-cased architecture. */
  datatype UnsupportedArch = UnsupportedArch(arch: string)

  /** The `OS` field: the `os.name` property, lower-cased once, character
      by character. */
  function Os(osName: string): (os: string)
    ensures |os| == |osName| && IsLower(os)
    ensures forall i :: 0 <= i < |osName| ==> os[i] == LowerChar(osName[i])
  {
    LowerAt(osName);
    Lower(osName)
  }

  /** `isWindows`: the OS name contains "win". */
  function IsWindows(osName: string): (r: bool)
    ensures r <==> exists i :: OccursAt(Os(osName), "win", i)
  {
    IndexOfFirst(Os(osName), "win");
    IndexOf(Os(osName), "win") >= 0
  }

  /** `isMac`: the OS name contains "mac". */
  function IsMac(osName: string): (r: bool)
    ensures r <==> exists i :: OccursAt(Os(osName), "mac", i)
  {
    IndexOfFirst(Os(osName), "mac");
    IndexOf(Os(osName), "mac") >= 0
  }

  /** `isUnix`: the OS name contains "nix" or "nux", or its first "aix"
      lies after index 0 (see UnixRule). */
  function IsUnix(osName: string): bool
  {
    IndexOf(Os(osName), "nix") >= 0 || IndexOf(Os(osName), "nux") >= 0 || IndexOf(Os(osName), "aix") > 0
  }

  /** The Unix test on occurrences: "nix" or "nux" anywhere, or "aix"
      somewhere but not at index 0. A name that starts with "aix" is
      therefore not Unix unless it has "nix" or "nux", whatever follows. */
  lemma UnixRule(osName: string)
    ensures IsUnix(osName) <==>
      || (exists i :: OccursAt(Os(osName), "nix", i))
      || (exists i :: OccursAt(Os(osName), "nux", i))
      || ((exists i :: OccursAt(Os(osName), "aix", i)) && !OccursAt(Os(osName), "aix", 0))
  {
    IndexOfFirst(Os(osName), "nix");
    IndexOfFirst(Os(osName), "nux");
    IndexOfPositive(Os(osName), "aix");
  }

  /** `getPlatform`: the Windows test first, then Unix, then Mac; the first
      that holds decides, and None stands for Java's `null`. */
  function GetPlatform(osName: string): (r: Option<string>)
    ensures r == None || r == Some("win") || r == Some("linux") || r == Some("darwin")
    ensures r == Some("win") <==> IsWindows(osName)
    ensures r == Some("linux") <==> !IsWindows(osName) && IsUnix(osName)
    ensures r == Some("darwin") <==> !IsWindows(osName) && !IsUnix(osName) && IsMac(osName)
    ensures r == None <==> !IsWindows(osName) && !IsUnix(osName) && !IsMac(osName)
  {
    if IsWindows(osName) then Some("win")
    else if IsUnix(osName) then Some("linux")
    else if IsMac(osName) then Some("darwin")
    else None
  }

  /** `getArch`: "x64" when the lower-cased architecture contains "64";
      otherwise a failure for exactly "arm", and "x86" for anything else. */
  function GetArch(osArch: string): (r: Result<string, UnsupportedArch>)
    ensures (exists i :: OccursAt(Lower(osArch), "64", i)) ==> r == Ok("x64")
    ensures r.Err? <==> Lower(osArch) == "arm"
    ensures r.Err? ==> r.error == UnsupportedArch("arm")
    ensures r.Ok? ==> r.value == "x64" || r.value == "x86"
    ensures r == Ok("x86") <==> !(exists i :: OccursAt(Lower(osArch), "64", i)) && Lower(osArch) != "arm"
  {
    var result := Lower(osArch);
    if Contains(result, "64") then Ok("x64")
    else if result == "arm" then Err(UnsupportedArch(result))
    else Ok("x86")
  }

  /** Whatever else the OS name contains, "win" makes it Windows. */
  lemma WindowsWins(osName: string)
    requires Contains(Os(osName), "win")
    ensures GetPlatform(osName) == Some("win")
  {
  }

  /** "darwin" needs "mac" and no earlier match, stated on occurrences:
      no "win", no "nix", no "nux", and any "aix" has its first one at 0. */
  lemma DarwinNeedsMac(osName: string)
    requires GetPlatform(osName) == Some("darwin")
    ensures exists i :: OccursAt(Os(osName), "mac", i)
    ensures forall i :: !OccursAt(Os(osName), "win", i)
    ensures forall i :: !OccursAt(Os(osName), "nix", i) && !OccursAt(Os(osName), "nux", i)
    ensures (exists i :: OccursAt(Os(osName), "aix", i)) ==> OccursAt(Os(osName), "aix", 0)
  {
    UnixRule(osName);
  }

  /** The "aix" test looks only at the first occurrence: a name that starts
      with "aix" is not Unix even when "aix" occurs again later. */
  lemma AixAtStartIsNotUnix(osName: string)
    requires OccursAt(Os(osName), "aix", 0)
    requires !Contains(Os(osName), "nix") && !Contains(Os(osName), "nux")
    ensures !IsUnix(osName)
  {
    UnixRule(osName);
  }

  /** An architecture name containing "64" is always "x64". */
  lemma SixtyFourIsX64(osArch: string)
    requires Contains(Lower(osArch), "64")
    ensures GetArch(osArch) == Ok("x64")
  {
  }

  /** Both classifiers see only the lower-cased input. */
  lemma CaseInsensitive(a: string, b: string)
    requires Lower(a) == Lower(b)
    ensures IsWindows(a) == IsWindows(b) && IsUnix(a) == IsUnix(b) && IsMac(a) == IsMac(b)
    ensures GetPlatform(a) == GetPlatform(b)
    ensures GetArch(a) == GetArch(b)
  {
  }

  /** Lower-casing the input first changes neither classification. */
  lemma LowerFirst(s: string)
    ensures GetPlatform(Lower(s)) == GetPlatform(s)
    ensures GetArch(Lower(s)) == GetArch(s)
  {
    LowerIdempotent(s);
  }

  // Sample names, each stated for every spelling that lower-cases to it.

  /** "Windows 10" is "win". */
  lemma Windows10IsWin(osName: string)
    requires Lower(osName) == "windows 10"
    ensures GetPlatform(osName) == Some("win")
  {
    assert Os(osName) == "windows 10";
  }

  /** "win32" is "win", and so is the mixed-case "WiN32". */
  lemma Win32IsWin(osName: string)
    requires Lower(osName) == "win32"
    ensures GetPlatform(osName) == Some("win")
  {
    assert Os(osName) == "win32";
  }

  /** "Mac OS X" fails the Windows and Unix tests and is "darwin". */
  lemma MacOsXIsDarwin(osName: string)
    requires Lower(osName) == "mac os x"
    ensures GetPlatform(osName) == Some("darwin")
  {
    assert Os(osName) == "mac os x";
    assert IndexOf("mac os x", "win") == -1;
    assert IndexOf("mac os x", "nix") == -1;
    assert IndexOf("mac os x", "nux") == -1;
    assert IndexOf("mac os x", "aix") == -1;
    assert IndexOf("mac os x", "mac") == 0;
  }

  /** "Linux" contains "nux" and is "linux". */
  lemma LinuxIsLinux(osName: string)
    requires Lower(osName) == "linux"
    ensures GetPlatform(osName) == Some("linux")
  {
    assert Os(osName) == "linux";
  }

  /** "SunOS" matches no test and is unknown. */
  lemma SunOsIsUnknown(osName: string)
    requires Lower(osName) == "sunos"
    ensures GetPlatform(osName) == None
  {
    assert Os(osName) == "sunos";
    assert IndexOf("sunos", "win") == -1;
    assert IndexOf("sunos", "nix") == -1;
    assert IndexOf("sunos", "nux") == -1;
    assert IndexOf("sunos", "aix") == -1;
    assert IndexOf("sunos", "mac") == -1;
  }

  /** "AIX" has its only "aix" at index 0, matches no test and is unknown. */
  lemma AixIsUnknown(osName: string)
    requires Lower(osName) == "aix"
    ensures GetPlatform(osName) == None
  {
    assert Os(osName) == "aix";
  }

  /** "AIX aix" is not Unix although "aix" occurs again at index 4. */
  lemma AixTwiceIsNotUnix(osName: string)
    requires Lower(osName) == "aix aix"
    ensures OccursAt(Os(osName), "aix", 4) && !IsUnix(osName)
  {
    assert Os(osName) == "aix aix";
    assert IndexOf("aix aix", "nix") == -1;
    assert IndexOf("aix aix", "nux") == -1;
    assert IndexOf("aix aix", "aix") == 0;
  }

  /** "IBM AIX" has its first "aix" at index 4 and is "linux". */
  lemma IbmAixIsLinux(osName: string)
    requires Lower(osName) == "ibm aix"
    ensures GetPlatform(osName) == Some("linux")
  {
    assert Os(osName) == "ibm aix";
    assert IndexOf("ibm aix", "win") == -1;
    assert IndexOf("ibm aix", "aix") == 4;
  }

  /** The mixed-case "WiN32" classifies as "win32" does. */
  lemma MixedCaseWin32()
    ensures GetPlatform("WiN32") == GetPlatform("win32") == Some("win")
  {
    LowerPointwise("WiN32", "win32");
    Win32IsWin("WiN32");
    LowerPointwise("win32", "win32");
    Win32IsWin("win32");
  }

  /** The name "AIX" that the JVM reports on AIX is unknown. */
  lemma AixNameIsUnknown()
    ensures GetPlatform("AIX") == None
  {
    LowerPointwise("AIX", "aix");
    AixIsUnknown("AIX");
  }

  /** "amd64", "x86_64" and "aarch64" are "x64"; the last only because it
      contains "64". */
  lemma SixtyFourBitNamesAreX64(osArch: string)
    requires Lower(osArch) == "amd64" || Lower(osArch) == "x86_64" || Lower(osArch) == "aarch64"
    ensures GetArch(osArch) == Ok("x64")
  {
    if Lower(osArch) == "amd64" {
      assert IndexOf("amd64", "64") == 3;
    } else if Lower(osArch) == "x86_64" {
      assert IndexOf("x86_64", "64") == 4;
    } else {
      assert IndexOf("aarch64", "64") == 5;
    }
  }

  /** "i386" and "armv7l" fall back to "x86": only the exact name "arm" is
      refused. */
  lemma OtherNamesAreX86(osArch: string)
    requires Lower(osArch) == "i386" || Lower(osArch) == "armv7l"
    ensures GetArch(osArch) == Ok("x86")
  {
  }

  /** "arm" is refused. */
  lemma ArmIsRefused(osArch: string)
    requires Lower(osArch) == "arm"
    ensures GetArch(osArch) == Err(UnsupportedArch("arm"))
  {
  }

  /** The upper-case "ARM" is refused as "arm" is. */
  lemma MixedCaseArm()
    ensures GetArch("ARM") == GetArch("arm") == Err(UnsupportedArch("arm"))
  {
    LowerPointwise("ARM", "arm");
    ArmIsRefused("ARM");
    LowerPointwise("arm", "arm");
    ArmIsRefused("arm");
  }
}
