/**
 The host identity: which distribution family the host belongs to and which
 package manager drives it (`detect_system_family`), and the identity record
 that `read_system_info` assembles from it.
 */
module Identity {
  import opened Wrappers
  import opened PyText

  datatype Family = Debian | RedHat | UnknownFamily

  datatype Manager = Apt | Yum | Dnf | UnknownManager

  /** The string the tool stores under `package_manager`; also the program it runs. */
  function ManagerName(m: Manager): string {
    match m
    case Apt => "apt"
    case Yum => "yum"
    case Dnf => "dnf"
    case UnknownManager => "unknown"
  }

  /** What `detect_system_family` returns. */
  datatype Classification = Classification(systemFamily: Family, packageManager: Manager, isSupported: bool)

  /** The record `read_system_info` returns: the four os-release fields plus the classification. */
  datatype SystemInfo = SystemInfo(
    systemType: string,
    systemVersion: string,
    systemCodename: string,
    systemName: string,
    systemFamily: Family,
    packageManager: Manager,
    isSupported: bool)

  /** Ids (after lower-casing) of the Debian family. */
  const DebianIds: seq<string> := ["ubuntu", "debian", "linuxmint", "pop"]

  /** Ids (after lower-casing) of the RedHat family. */
  const RedHatIds: seq<string> := ["centos", "rocky", "almalinux", "rhel", "fedora", "ol"]

  /** The release number that decides between yum and dnf. */
  const DnfFirstRelease := 8

  /**
   `int(version.split('.')[0])`, `None` where Python raises: the number
   written before the first '.', or the whole version when it has none.
   */
  function MajorVersion(version: string): (r: Option<int>)
    ensures '.' !in version ==> r == ParseInt(version)
    ensures '.' in version ==> r == ParseInt(version[..FirstIndex(version, '.')])
  {
    ParseInt(BeforeFirstDot(version))
  }

  /** The invariant every classification keeps between family, manager and support flag. */
  predicate Consistent(family: Family, manager: Manager, supported: bool) {
    && (supported <==> family != UnknownFamily)
    && (family == Debian ==> manager == Apt)
    && (family == RedHat ==> manager == Yum || manager == Dnf)
    && (family == UnknownFamily ==> manager == UnknownManager)
  }

  /**
   `detect_system_family`: the lower-cased id picks the family; a RedHat
   host runs dnf from release 8 on and yum before it, and when the release
   does not parse, whether `dnf` is on the PATH (`dnfOnPath`, the answer of
   `which dnf`) decides.
   */
  function Detect(systemType: string, systemVersion: string, dnfOnPath: bool): (c: Classification)
    ensures Consistent(c.systemFamily, c.packageManager, c.isSupported)
    ensures c.systemFamily == Debian <==> Lower(systemType) in DebianIds
    ensures c.systemFamily == RedHat <==> Lower(systemType) in RedHatIds
    ensures c.systemFamily == RedHat && MajorVersion(systemVersion).Some? ==>
              (c.packageManager == Dnf <==> MajorVersion(systemVersion).value >= DnfFirstRelease)
    ensures c.systemFamily == RedHat && MajorVersion(systemVersion).None? ==>
              (c.packageManager == Dnf <==> dnfOnPath)
  {
    var id := Lower(systemType);
    if id in DebianIds then
      Classification(Debian, Apt, true)
    else if id in RedHatIds then
      var manager :=
        match MajorVersion(systemVersion)
        case Some(n) => if n >= DnfFirstRelease then Dnf else Yum
        case None => if dnfOnPath then Dnf else Yum;
      Classification(RedHat, manager, true)
    else
      Classification(UnknownFamily, UnknownManager, false)
  }

  /**
   Lines 157-163 of `read_system_info`: the classification of the id and
   version, together with the four os-release fields as read.
   */
  function Identify(systemType: string, systemVersion: string, systemCodename: string,
                    systemName: string, dnfOnPath: bool): (info: SystemInfo)
    ensures Consistent(info.systemFamily, info.packageManager, info.isSupported)
    ensures info.systemType == systemType && info.systemVersion == systemVersion
    ensures info.systemCodename == systemCodename && info.systemName == systemName
  {
    var c := Detect(systemType, systemVersion, dnfOnPath);
    SystemInfo(systemType, systemVersion, systemCodename, systemName,
               c.systemFamily, c.packageManager, c.isSupported)
  }

  /** The id test is case-insensitive: an id classifies like its lower-cased form. */
  lemma DetectIgnoresCase(systemType: string, systemVersion: string, dnfOnPath: bool)
    ensures Detect(systemType, systemVersion, dnfOnPath) == Detect(Lower(systemType), systemVersion, dnfOnPath)
  {
    LowerIdempotent(systemType);
  }

  /**
   The dnf probe matters exactly for a RedHat id whose release does not
   parse; everywhere else the classification is the same whatever it says.
   */
  lemma ProbeOnlyAsFallback(systemType: string, systemVersion: string)
    ensures Detect(systemType, systemVersion, true) != Detect(systemType, systemVersion, false)
        <==> Lower(systemType) in RedHatIds && MajorVersion(systemVersion).None?
  {
  }

  /**
   A RedHat release written as `n` or `n.<anything>` gets dnf exactly when
   `n >= 8`, and yum otherwise, without consulting the probe; only a number
   too long for `int()` leaves the choice to the probe.
   */
  lemma RedHatManagerByRelease(systemType: string, n: int, rest: string, dnfOnPath: bool)
    requires Lower(systemType) in RedHatIds
    requires rest == [] || rest[0] == '.'
    ensures Detect(systemType, DecimalString(n) + rest, dnfOnPath).packageManager
         == if DigitCount(n) > MaxIntDigits then (if dnfOnPath then Dnf else Yum)
            else if n >= DnfFirstRelease then Dnf else Yum
  {
    var digits := DecimalString(n);
    assert forall k :: 0 <= k < |digits| ==> digits[k] == '-' || IsDigit(digits[k]);
    BeforeFirstDotOfPrefix(digits, rest);
    ParseIntRoundTrip(n);
  }

  /** A RedHat host whose os-release has no `VERSION_ID` gets dnf exactly when dnf is on the PATH. */
  lemma RedHatWithoutVersion(systemType: string, dnfOnPath: bool)
    requires Lower(systemType) in RedHatIds
    ensures Detect(systemType, "unknown", dnfOnPath).packageManager == (if dnfOnPath then Dnf else Yum)
  {
    assert BeforeFirstDot("unknown") == "unknown";
    NoDigitNoInt("unknown");
  }

  /**
   A release that `str.strip()` reduces to a number can still defeat
   `int()`: "\x1c7" is read as no release at all, so the probe decides.
   */
  lemma SeparatorReleaseUsesProbe(systemType: string, dnfOnPath: bool)
    requires Lower(systemType) in RedHatIds
    ensures Detect(systemType, "\U{1C}7", dnfOnPath).packageManager == (if dnfOnPath then Dnf else Yum)
  {
    IntKeepsSeparators();
  }
}
