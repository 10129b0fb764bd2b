/**
 * Brooklyn's `BashCommands` helpers, kept symbolic: each helper is a
 * constructor, so a command records how it was composed without the model
 * committing to the shell text the library would emit.
 */
module BashCommands {

  datatype Cmd =
    | Raw(text: string)
    | Sudo(command: Cmd)
    | ChainGroup(commands: seq<Cmd>)
    | Alternatives(commands: seq<Cmd>)
    | IfExecutableElse1(executable: string, command: Cmd)
    | DownloadUrlAs(url: string, saveAs: string)   // commandToDownloadUrlAs
    | InstallExecutable(name: string)
    | InstallCurl                                   // the INSTALL_CURL constant

  datatype Download = Download(url: string, saveAs: string)

  /** Every download a command performs, in the order the command lists them. */
  function Downloads(c: Cmd): seq<Download>
    decreases c, 1
  {
    match c
    case Raw(_) => []
    case Sudo(inner) => Downloads(inner)
    case ChainGroup(cs) => DownloadsAll(cs)
    case Alternatives(cs) => DownloadsAll(cs)
    case IfExecutableElse1(_, inner) => Downloads(inner)
    case DownloadUrlAs(url, saveAs) => [Download(url, saveAs)]
    case InstallExecutable(_) => []
    case InstallCurl => []
  }

  function DownloadsAll(cs: seq<Cmd>): seq<Download>
    decreases cs, 0
  {
    if |cs| == 0 then [] else Downloads(cs[0]) + DownloadsAll(cs[1..])
  }

  /** Downloads of a command list are those of its parts, in order. */
  lemma {:induction false} DownloadsAllConcat(xs: seq<Cmd>, ys: seq<Cmd>)
    ensures DownloadsAll(xs + ys) == DownloadsAll(xs) + DownloadsAll(ys)
    decreases |xs|
  {
    if |xs| == 0 {
      assert xs + ys == ys;
    } else {
      assert (xs + ys)[0] == xs[0];
      assert (xs + ys)[1..] == xs[1..] + ys;
      DownloadsAllConcat(xs[1..], ys);
    }
  }

  /** When only the last command of a list downloads anything, the list downloads what it does. */
  lemma {:induction false} DownloadsOfLast(cs: seq<Cmd>)
    requires |cs| > 0 && forall i | 0 <= i < |cs| - 1 :: Downloads(cs[i]) == []
    ensures DownloadsAll(cs) == Downloads(cs[|cs| - 1])
    decreases |cs|
  {
    if |cs| == 1 {
      assert cs[1..] == [];
      assert Downloads(cs[0]) + [] == Downloads(cs[0]);
    } else {
      assert forall i | 0 <= i < |cs[1..]| - 1 :: cs[1..][i] == cs[i + 1];
      DownloadsOfLast(cs[1..]);
      assert Downloads(cs[0]) == [];
      assert [] + DownloadsAll(cs[1..]) == DownloadsAll(cs[1..]);
    }
  }

  /** A guarded `sudo` download performs exactly that download. */
  lemma {:induction false} GuardedDownload(executable: string, url: string, saveAs: string)
    ensures Downloads(IfExecutableElse1(executable, Sudo(DownloadUrlAs(url, saveAs)))) == [Download(url, saveAs)]
  {
    var get := DownloadUrlAs(url, saveAs);
    assert Downloads(Sudo(get)) == Downloads(get);
  }

  lemma {:induction false} DownloadsAllThree(a: Cmd, b: Cmd, c: Cmd)
    ensures DownloadsAll([a, b, c]) == Downloads(a) + Downloads(b) + Downloads(c)
  {
    assert [a, b, c][1..] == [b, c];
    assert [b, c][1..] == [c];
    assert [c][1..] == [];
    assert DownloadsAll([c]) == Downloads(c) + [];
    assert DownloadsAll([b, c]) == Downloads(b) + DownloadsAll([c]);
    assert DownloadsAll([a, b, c]) == Downloads(a) + DownloadsAll([b, c]);
    assert Downloads(c) + [] == Downloads(c);
  }
}
