/**
 Which way `config_static_ip` configures a static address for a host: with
 nmcli on newer RedHat-family hosts, with ifcfg network scripts on older
 ones, with netplan on Debian-family hosts, and not at all otherwise. Only
 the choice is modelled; the prompts, the address checks and the
 configuration it then writes are not.
 */
module StaticIp {
  import opened Wrappers
  import opened PyText
  import opened Identity

  datatype NetworkSetup = Nmcli | NetworkScripts | Netplan | NotSupported

  /** Ids that get nmcli whatever their release; compared as read, without lower-casing. */
  const NmcliIds: seq<string> := ["rocky", "almalinux"]

  /**
   The release the network branch uses: the major version, or 8 when it
   does not parse; a release below 8 is always one the version states.
   */
  function NetworkRelease(systemVersion: string): (r: int)
    ensures MajorVersion(systemVersion).Some? ==> r == MajorVersion(systemVersion).value
    ensures r < DnfFirstRelease ==> MajorVersion(systemVersion) == Some(r)
  {
    MajorVersion(systemVersion).GetOr(DnfFirstRelease)
  }

  /** The branch `config_static_ip` takes for a host. */
  function ChooseNetworkSetup(info: SystemInfo): (setup: NetworkSetup)
    ensures setup == Netplan <==> info.systemFamily == Debian
    ensures setup == NotSupported <==> info.systemFamily == UnknownFamily
    ensures info.systemFamily == RedHat && MajorVersion(info.systemVersion).None? ==> setup == Nmcli
    ensures info.systemFamily == RedHat && info.systemType in NmcliIds ==> setup == Nmcli
  {
    match info.systemFamily
    case RedHat =>
      if NetworkRelease(info.systemVersion) >= DnfFirstRelease || info.systemType in NmcliIds
      then Nmcli else NetworkScripts
    case Debian => Netplan
    case UnknownFamily => NotSupported
  }

  /**
   For a RedHat host whose release parses, the network branch and the
   package manager agree: nmcli goes with dnf, ifcfg scripts with yum,
   except that Rocky and AlmaLinux always get nmcli.
   */
  lemma NmcliGoesWithDnf(systemType: string, systemVersion: string, systemCodename: string,
                         systemName: string, dnfOnPath: bool)
    requires Lower(systemType) in RedHatIds && MajorVersion(systemVersion).Some?
    ensures var info := Identify(systemType, systemVersion, systemCodename, systemName, dnfOnPath);
            ChooseNetworkSetup(info) == Nmcli <==> info.packageManager == Dnf || systemType in NmcliIds
  {
  }

  /**
   The two fallbacks differ: a RedHat host whose release does not parse and
   that has no dnf is given yum, yet its network is configured with nmcli.
   */
  lemma FallbacksDisagree(systemType: string, systemVersion: string, systemCodename: string, systemName: string)
    requires Lower(systemType) in RedHatIds && MajorVersion(systemVersion).None?
    ensures var info := Identify(systemType, systemVersion, systemCodename, systemName, false);
            info.packageManager == Yum && ChooseNetworkSetup(info) == Nmcli
  {
  }
}
