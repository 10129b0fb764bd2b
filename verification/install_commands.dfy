/**
 * `AmbariInstallCommands`: the shell commands that prepare a machine for
 * Ambari. Which repository definition is downloaded depends on the package
 * manager found and on the OS version the machine reports; the Ambari
 * version fills the two placeholders of the repository URL.
 */
module InstallCommands {
  import opened Wrappers
  import opened JavaText
  import opened BashCommands

  // ---------------------------------------------------------------------------
  // Repository URL templates and list locations

  /** The repository definitions Hortonworks publishes, one per OS flavour. */
  datatype RepoTemplate = Centos7 | Centos6 | Centos5 | Suse11 | Ubuntu14 | Ubuntu12

  const RepoBase := "http://public-repo-1.hortonworks.com/ambari/"

  const CentosRepoListLocation := "/etc/yum.repos.d/ambari.repo"
  const SuseRepoListLocation := "/etc/zypp/repos.d/ambari.repo"
  const UbuntuRepoListLocation := "/etc/apt/sources.list.d/ambari.list"

  /** The flavour's directory under the repository base. */
  function OsDir(t: RepoTemplate): string {
    match t
    case Centos7 => "centos7"
    case Centos6 => "centos6"
    case Centos5 => "centos5"
    case Suse11 => "suse11"
    case Ubuntu14 => "ubuntu14"
    case Ubuntu12 => "ubuntu12"
  }

  /** Debian-style flavours publish an `ambari.list`, the others an `ambari.repo`. */
  function ListFile(t: RepoTemplate): string {
    if t == Ubuntu14 || t == Ubuntu12 then "ambari.list" else "ambari.repo"
  }

  /** The fixed text before the first placeholder. */
  function RepoHead(t: RepoTemplate): string {
    RepoBase + OsDir(t) + "/"
  }

  /** The fixed text after the second placeholder. */
  function RepoTail(t: RepoTemplate): string {
    "/" + ListFile(t)
  }

  /** The `String.format` template: major version first, full version second. */
  function Pattern(t: RepoTemplate): string {
    RepoHead(t) + "%s" + "/updates/" + "%s" + RepoTail(t)
  }

  lemma RepoBaseHasNoPercent()
    ensures NoPercent(RepoBase)
  {
  }

  /** No literal part of a template contains '%'. */
  lemma NoPercentInLiterals(t: RepoTemplate)
    ensures NoPercent(RepoBase) && NoPercent("/") && NoPercent("/updates/")
    ensures NoPercent(OsDir(t)) && NoPercent(ListFile(t))
  {
    RepoBaseHasNoPercent();
    match t
    case Centos7 =>
    case Centos6 =>
    case Centos5 =>
    case Suse11 =>
    case Ubuntu14 =>
    case Ubuntu12 =>
  }

  // ---------------------------------------------------------------------------
  // Versions

  datatype OsDetails = OsDetails(version: string)
  datatype Machine = Machine(osDetails: Option<OsDetails>)

  /** `getOsVersion`: the reported OS version, or "" when the machine or its details are null. */
  function OsVersion(machine: Option<Machine>): (v: string)
    ensures machine.None? || machine.value.osDetails.None? ==> v == ""
    ensures v != "" ==> machine.Some? && machine.value.osDetails.Some? && v == machine.value.osDetails.value.version
    ensures machine.Some? && machine.value.osDetails.Some? ==> v == machine.value.osDetails.value.version
  {
    match machine
    case None => ""
    case Some(m) =>
      match m.osDetails
      case None => ""
      case Some(d) => d.version
  }

  /** `getMajorVersion`: the version's first character followed by ".x" (`charAt(0)` needs a character). */
  function MajorVersion(version: string): (major: string)
    requires |version| > 0
    ensures |major| == 3 && major[0] == version[0] && major[1..] == ".x"
  {
    [version[0]] + ".x"
  }

  /** The repository URL of a template for an Ambari version; `FillPattern` ties it to `String.format`. */
  function RepoUrl(t: RepoTemplate, version: string): (url: string)
    requires |version| > 0
    ensures |url| == |RepoHead(t)| + |MajorVersion(version)| + |"/updates/"| + |version| + |RepoTail(t)|
    ensures StartsWith(url, RepoHead(t)) && EndsWith(url, version + RepoTail(t))
  {
    FramedBy(RepoHead(t), MajorVersion(version), "/updates/", version, RepoTail(t));
    RepoHead(t) + MajorVersion(version) + "/updates/" + version + RepoTail(t)
  }

  /** Five pieces laid end to end start with the first and end with the last two. */
  lemma {:induction false} FramedBy(a: string, b: string, c: string, d: string, e: string)
    ensures StartsWith(a + b + c + d + e, a) && EndsWith(a + b + c + d + e, d + e)
  {
    var s := a + b + c + d + e;
    assert s == a + (b + c + d + e);
    assert s == (a + b + c) + (d + e);
    assert s[..|a|] == a;
    assert s[|s| - |d + e|..] == d + e;
  }

  /**
   * `String.format(template, getMajorVersion(), version)`: the first
   * placeholder takes the major version, the second the full version.
   */
  lemma {:induction false} FillPattern(t: RepoTemplate, version: string)
    requires |version| > 0
    ensures Format(Pattern(t), [MajorVersion(version), version]) == Some(RepoUrl(t, version))
  {
    NoPercentInLiterals(t);
    NoPercentConcat(RepoBase, OsDir(t));
    NoPercentConcat(RepoBase + OsDir(t), "/");
    NoPercentConcat("/", ListFile(t));
    FormatTwo(RepoHead(t), "/updates/", RepoTail(t), MajorVersion(version), version);
  }

  /** Different templates of one family (same directory length) never yield the same URL for one version. */
  lemma {:induction false} RepoUrlsDistinct(t1: RepoTemplate, t2: RepoTemplate, version: string)
    requires |version| > 0 && t1 != t2 && |OsDir(t1)| == |OsDir(t2)|
    ensures RepoUrl(t1, version) != RepoUrl(t2, version)
  {
    var k := |OsDir(t1)| - 1;
    LastDirCharDiffers(t1, t2);
    UrlShowsOsDir(t1, version, k);
    UrlShowsOsDir(t2, version, k);
  }

  /** The URL spells the template's directory right after the repository base. */
  lemma {:induction false} UrlShowsOsDir(t: RepoTemplate, version: string, k: nat)
    requires |version| > 0 && k < |OsDir(t)|
    ensures RepoUrl(t, version)[|RepoBase| + k] == OsDir(t)[k]
  {
    CharOfMiddle(RepoBase, OsDir(t), "/", k);
    var url := RepoUrl(t, version);
    assert url[..|RepoHead(t)|][|RepoBase| + k] == url[|RepoBase| + k];
  }

  lemma LastDirCharDiffers(t1: RepoTemplate, t2: RepoTemplate)
    requires t1 != t2 && |OsDir(t1)| == |OsDir(t2)|
    ensures OsDir(t1)[|OsDir(t1)| - 1] != OsDir(t2)[|OsDir(t2)| - 1]
  {
    match t1
    case Centos7 =>
    case Centos6 =>
    case Centos5 =>
    case Suse11 =>
    case Ubuntu14 =>
    case Ubuntu12 =>
  }

  lemma {:induction false} CharOfMiddle(a: string, b: string, c: string, k: nat)
    requires k < |b|
    ensures (a + b + c)[|a| + k] == b[k]
  {
  }

  /** A repository URL gives its version back: two versions never share a URL. */
  lemma {:induction false} RepoUrlDeterminesVersion(t: RepoTemplate, v1: string, v2: string)
    requires |v1| > 0 && |v2| > 0
    requires RepoUrl(t, v1) == RepoUrl(t, v2)
    ensures v1 == v2
  {
    var head, tail := RepoHead(t), RepoTail(t);
    var n := |head| + 3 + 9;
    assert |v1| == |v2|;
    SliceOfFourth(head, MajorVersion(v1), "/updates/", v1, tail);
    SliceOfFourth(head, MajorVersion(v2), "/updates/", v2, tail);
  }

  lemma {:induction false} SliceOfFourth(a: string, b: string, c: string, d: string, e: string)
    ensures (a + b + c + d + e)[|a| + |b| + |c|..|a| + |b| + |c| + |d|] == d
  {
  }

  // ---------------------------------------------------------------------------
  // Template selection

  /** setupAptRepo's choice: Ubuntu 14 for an OS version starting "14", Ubuntu 12 otherwise. */
  function AptTemplate(osVersion: string): RepoTemplate {
    if StartsWith(osVersion, "14") then Ubuntu14 else Ubuntu12
  }

  /** setupYumRepo's choice: CentOS 7 for "7…", CentOS 6 for "6…", CentOS 5 otherwise. */
  function YumTemplate(osVersion: string): RepoTemplate {
    if StartsWith(osVersion, "7") then Centos7
    else if StartsWith(osVersion, "6") then Centos6
    else Centos5
  }

  function AptUrl(machine: Option<Machine>, version: string): string
    requires |version| > 0
  {
    RepoUrl(AptTemplate(OsVersion(machine)), version)
  }

  function YumUrl(machine: Option<Machine>, version: string): string
    requires |version| > 0
  {
    RepoUrl(YumTemplate(OsVersion(machine)), version)
  }

  /** The apt URL is the Ubuntu 14 one exactly when the OS version starts with "14", the Ubuntu 12 one otherwise. */
  lemma AptUrlChoice(machine: Option<Machine>, version: string)
    requires |version| > 0
    ensures AptUrl(machine, version) == RepoUrl(Ubuntu14, version) <==> StartsWith(OsVersion(machine), "14")
    ensures AptUrl(machine, version) == RepoUrl(Ubuntu12, version) <==> !StartsWith(OsVersion(machine), "14")
  {
    RepoUrlsDistinct(Ubuntu14, Ubuntu12, version);
  }

  /** The yum URL is CentOS 7 for "7…", CentOS 6 for "6…", and CentOS 5 for every other OS version. */
  lemma YumUrlChoice(machine: Option<Machine>, version: string)
    requires |version| > 0
    ensures var os := OsVersion(machine);
      && (YumUrl(machine, version) == RepoUrl(Centos7, version) <==> StartsWith(os, "7"))
      && (YumUrl(machine, version) == RepoUrl(Centos6, version) <==> StartsWith(os, "6"))
      && (YumUrl(machine, version) == RepoUrl(Centos5, version) <==> !StartsWith(os, "7") && !StartsWith(os, "6"))
  {
    RepoUrlsDistinct(Centos7, Centos6, version);
    RepoUrlsDistinct(Centos7, Centos5, version);
    RepoUrlsDistinct(Centos6, Centos5, version);
  }

  /** Without a machine or its OS details the version is "", which selects Ubuntu 12 and CentOS 5. */
  lemma UnknownOsFallsBack(machine: Option<Machine>, version: string)
    requires |version| > 0
    requires machine.None? || machine.value.osDetails.None?
    ensures OsVersion(machine) == ""
    ensures AptUrl(machine, version) == RepoUrl(Ubuntu12, version)
    ensures YumUrl(machine, version) == RepoUrl(Centos5, version)
  {
  }

  // ---------------------------------------------------------------------------
  // Commands

  function SetupAptRepo(machine: Option<Machine>, version: string): (c: Cmd)
    requires |version| > 0
    ensures c.IfExecutableElse1? && c.executable == "apt-get"
    ensures Downloads(c) == [Download(AptUrl(machine, version), UbuntuRepoListLocation)]
  {
    var get := Sudo(DownloadUrlAs(AptUrl(machine, version), UbuntuRepoListLocation));
    var addKey := Sudo(Raw("apt-key adv --recv-keys --keyserver keyserver.ubuntu.com B9733A7A07513CAD"));
    var update := Sudo(Raw("apt-get update"));
    DownloadsAllThree(get, addKey, update);
    assert Downloads(get) == Downloads(get.command);
    assert Downloads(addKey) == [] && Downloads(update) == [];
    IfExecutableElse1("apt-get", ChainGroup([get, addKey, update]))
  }

  function SetupYumRepo(machine: Option<Machine>, version: string): (c: Cmd)
    requires |version| > 0
    ensures c.IfExecutableElse1? && c.executable == "yum"
    ensures Downloads(c) == [Download(YumUrl(machine, version), CentosRepoListLocation)]
  {
    GuardedDownload("yum", YumUrl(machine, version), CentosRepoListLocation);
    IfExecutableElse1("yum", Sudo(DownloadUrlAs(YumUrl(machine, version), CentosRepoListLocation)))
  }

  function SetupZypperRepo(version: string): (c: Cmd)
    requires |version| > 0
    ensures c.IfExecutableElse1? && c.executable == "zypper"
    ensures Downloads(c) == [Download(RepoUrl(Suse11, version), SuseRepoListLocation)]
  {
    GuardedDownload("zypper", RepoUrl(Suse11, version), SuseRepoListLocation);
    IfExecutableElse1("zypper", Sudo(DownloadUrlAs(RepoUrl(Suse11, version), SuseRepoListLocation)))
  }

  /** `createCommandToAddAmbariToRepositoriesList`: try apt, then yum, then zypper. */
  function RepositoriesCommand(machine: Option<Machine>, version: string): (c: Cmd)
    requires |version| > 0
    ensures c.Alternatives? && |c.commands| == 3
    ensures forall i | 0 <= i < 3 :: c.commands[i].IfExecutableElse1?
    ensures [c.commands[0].executable, c.commands[1].executable, c.commands[2].executable] == ["apt-get", "yum", "zypper"]
  {
    Alternatives([SetupAptRepo(machine, version), SetupYumRepo(machine, version), SetupZypperRepo(version)])
  }

  /** `installAmbariRequirements`: curl, ntp, an ntp service start, then the repository list. */
  function InstallAmbariRequirements(machine: Option<Machine>, version: string): (c: Cmd)
    requires |version| > 0
    ensures c.ChainGroup? && |c.commands| == 4
    ensures c.commands[0] == InstallCurl && c.commands[1] == InstallExecutable("ntp")
    ensures c.commands[2] == Alternatives([Sudo(Raw("service ntpd start")), Sudo(Raw("service ntp start"))])
    ensures c.commands[3] == RepositoriesCommand(machine, version)
  {
    RequirementsChain(RepositoriesCommand(machine, version))
  }

  /** The requirements chain around a given repository step. */
  function RequirementsChain(repos: Cmd): Cmd {
    ChainGroup([
      InstallCurl,
      InstallExecutable("ntp"),
      Alternatives([Sudo(Raw("service ntpd start")), Sudo(Raw("service ntp start"))]),
      repos])
  }

  /**
   * The repository alternatives are guarded by apt-get, yum and zypper in that
   * order, and each downloads its flavour's URL to its fixed list location.
   */
  lemma RepositoriesSetupOrder(machine: Option<Machine>, version: string)
    requires |version| > 0
    ensures var c := RepositoriesCommand(machine, version);
      && c.Alternatives? && |c.commands| == 3
      && (forall i | 0 <= i < 3 :: c.commands[i].IfExecutableElse1?)
      && [c.commands[0].executable, c.commands[1].executable, c.commands[2].executable] == ["apt-get", "yum", "zypper"]
      && Downloads(c) == [
           Download(AptUrl(machine, version), UbuntuRepoListLocation),
           Download(YumUrl(machine, version), CentosRepoListLocation),
           Download(RepoUrl(Suse11, version), SuseRepoListLocation)]
  {
    var apt, yum, zyp := SetupAptRepo(machine, version), SetupYumRepo(machine, version), SetupZypperRepo(version);
    DownloadsAllThree(apt, yum, zyp);
  }

  /** The only downloads the requirements script performs are the repository-list ones. */
  lemma RequirementsDownloadOnlyRepoLists(machine: Option<Machine>, version: string)
    requires |version| > 0
    ensures Downloads(InstallAmbariRequirements(machine, version)) == Downloads(RepositoriesCommand(machine, version))
  {
    RequirementsChainDownloads(RepositoriesCommand(machine, version));
  }

  /** curl, ntp and the ntp service start download nothing, whatever the repository step is. */
  lemma {:induction false} RequirementsChainDownloads(repos: Cmd)
    ensures Downloads(RequirementsChain(repos)) == Downloads(repos)
  {
    var cs := RequirementsChain(repos).commands;
    var starts := cs[2].commands;
    assert Downloads(starts[0]) == Downloads(starts[0].command);
    DownloadsOfLast(starts);
    assert Downloads(starts[1]) == Downloads(starts[1].command);
    DownloadsOfLast(cs);
  }

  // ---------------------------------------------------------------------------
  // setHostname

  const HostnameScriptHead := "echo '#!/bin/sh\necho "
  const HostnameScriptRedirect := "' > "
  const ChmodExecutable := "chmod a+x "

  /**
   * `setHostname`: two commands, the first writes a `/bin/sh` script echoing
   * the FQDN into the given location, the second makes that same file
   * executable.
   */
  function SetHostname(fqdn: string, location: string): (cmds: seq<Cmd>)
    ensures |cmds| == 2
    ensures cmds[0].Sudo? && cmds[0].command.Raw?
    ensures StartsWith(cmds[0].command.text, HostnameScriptHead + fqdn)
    ensures EndsWith(cmds[0].command.text, HostnameScriptRedirect + location)
    ensures |cmds[0].command.text| == |HostnameScriptHead| + |fqdn| + |HostnameScriptRedirect| + |location|
    ensures cmds[1] == Sudo(Raw(ChmodExecutable + location))
  {
    var script := HostnameScriptHead + fqdn + HostnameScriptRedirect + location;
    assert script[..|HostnameScriptHead + fqdn|] == HostnameScriptHead + fqdn;
    assert script[|script| - |HostnameScriptRedirect + location|..] == HostnameScriptRedirect + location;
    [Sudo(Raw(script)), Sudo(Raw(ChmodExecutable + location))]
  }

  /** The two commands determine the FQDN and the location they were built from. */
  lemma SetHostnameInjective(fqdn1: string, location1: string, fqdn2: string, location2: string)
    requires SetHostname(fqdn1, location1) == SetHostname(fqdn2, location2)
    ensures fqdn1 == fqdn2 && location1 == location2
  {
    var c1, c2 := SetHostname(fqdn1, location1), SetHostname(fqdn2, location2);
    assert (ChmodExecutable + location1)[|ChmodExecutable|..] == location1;
    assert (ChmodExecutable + location2)[|ChmodExecutable|..] == location2;
    assert c1[1] == c2[1];
    var t1, t2 := c1[0].command.text, c2[0].command.text;
    var h := |HostnameScriptHead|;
    assert t1 == HostnameScriptHead + fqdn1 + HostnameScriptRedirect + location1;
    assert t2 == HostnameScriptHead + fqdn2 + HostnameScriptRedirect + location2;
    assert |fqdn1| == |fqdn2|;
    assert t1[h..h + |fqdn1|] == fqdn1;
    assert t2[h..h + |fqdn2|] == fqdn2;
  }
}
