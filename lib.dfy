/**
 * The programmatic entry point: it picks the explorer plugin for a network
 * name and builds the command line that runs that plugin on the contracts.
 */
module Lib {
  import opened Optional
  import opened Text

  /** Networks served by the Etherscan plugin. */
  const EtherscanNetworks: seq<string> := ["mainnet", "rinkeby", "kovan", "ropsten", "goerli"]

  /** Networks served by the Blockscout plugin. */
  const BlockscoutNetworks: seq<string> := ["xdai", "sokol"]

  /** The license passed when the caller gives none. */
  const DefaultLicense: string := "UNLICENSED"

  /** The plugin for a network, or nothing for an unsupported one. */
  function Explorer(network: string): (r: Option<string>)
    ensures r == Some("etherscan") <==> network in EtherscanNetworks
    ensures r == Some("blockscout") <==> network in BlockscoutNetworks
    ensures r.None? <==> network !in EtherscanNetworks + BlockscoutNetworks
  {
    if network in EtherscanNetworks then Some("etherscan")
    else if network in BlockscoutNetworks then Some("blockscout")
    else None
  }

  /** The license argument: the caller's, or the default when it is left undefined. */
  function LicenseArgument(license: Option<string>): string
  {
    match license
    case None => DefaultLicense
    case Some(l) => l
  }

  /** The command line `truffle run <explorer> <names> --network <network> --license <license>`. */
  function CommandLine(explorer: string, names: seq<string>, network: string, license: Option<string>): string
  {
    "truffle run " + explorer + " " + Join(names, " ") + " --network " + network + " --license " + LicenseArgument(license)
  }

  /** What `verify` starts: `npx` with the command line split at every space. */
  datatype Invocation = Invocation(explorer: string, command: string, arguments: seq<string>)

  /**
   * `verify`: nothing is started for an unsupported network; otherwise `npx`
   * runs the explorer's plugin on the named contracts.
   */
  function Verify(names: seq<string>, network: string, license: Option<string>): (r: Option<Invocation>)
    ensures r.None? <==> Explorer(network).None?
    ensures r.Some? ==>
      && r.value.explorer == Explorer(network).value
      && r.value.arguments == Split(r.value.command, ' ')
      && r.value.command == CommandLine(r.value.explorer, names, network, license)
  {
    match Explorer(network)
    case None => None
    case Some(explorer) =>
      var command := CommandLine(explorer, names, network, license);
      Some(Invocation(explorer, command, Split(command, ' ')))
  }

  /** The pieces the command line is made of; no contract names still leaves one empty piece. */
  function CommandPieces(explorer: string, names: seq<string>, network: string, license: Option<string>): seq<string>
  {
    ["truffle", "run", explorer] + (if names == [] then [""] else names)
      + ["--network", network, "--license", LicenseArgument(license)]
  }

  /** Joining three pieces and then more. */
  lemma JoinThree(a: string, b: string, c: string, rest: seq<string>, sep: string)
    requires |rest| >= 1
    ensures Join([a, b, c] + rest, sep) == a + sep + (b + sep + (c + sep + Join(rest, sep)))
  {
    JoinCons(c, rest, sep);
    JoinCons(b, [c] + rest, sep);
    JoinCons(a, [b] + ([c] + rest), sep);
    assert [a] + ([b] + ([c] + rest)) == [a, b, c] + rest;
  }

  /** Regrouping the template's pieces around single separators. */
  lemma Regroup(t: string, r: string, e: string, j: string, nw: string, n: string, lc: string, l: string,
                sep: string, head: string, mid: string, last: string)
    requires head == t + sep + r + sep && mid == sep + nw + sep && last == sep + lc + sep
    ensures head + e + sep + j + mid + n + last + l
      == t + sep + (r + sep + (e + sep + (j + sep + (nw + sep + (n + sep + (lc + sep + l))))))
  {
  }

  /** The command line is its pieces joined by single spaces. */
  lemma CommandLineJoin(explorer: string, names: seq<string>, network: string, license: Option<string>)
    ensures CommandLine(explorer, names, network, license) == Join(CommandPieces(explorer, names, network, license), " ")
  {
    var middle := if names == [] then [""] else names;
    var lic := LicenseArgument(license);
    var flags := ["--network", network, "--license", lic];
    assert Join(middle, " ") == Join(names, " ");
    assert CommandPieces(explorer, names, network, license) == ["truffle", "run", explorer] + (middle + flags);
    JoinThree("truffle", "run", explorer, middle + flags, " ");
    JoinAppend(middle, flags, " ");
    assert flags == ["--network", network, "--license"] + [lic];
    JoinThree("--network", network, "--license", [lic], " ");
    Regroup("truffle", "run", explorer, Join(names, " "), "--network", network, "--license", lic,
      " ", "truffle run ", " --network ", " --license ");
  }

  /**
   * When no name, the network and the license contain a space, `npx`
   * receives exactly `run`'s pieces: `truffle`, `run`, the explorer, the
   * contract names (one empty argument when there are none), then the
   * network and license flags with their values.
   */
  lemma VerifyArguments(names: seq<string>, network: string, license: Option<string>)
    requires Explorer(network).Some?
    requires forall i :: 0 <= i < |names| ==> ' ' !in names[i]
    requires ' ' !in network && ' ' !in LicenseArgument(license)
    ensures Verify(names, network, license).value.arguments
      == CommandPieces(Explorer(network).value, names, network, license)
  {
    var explorer := Explorer(network).value;
    var pieces := CommandPieces(explorer, names, network, license);
    CommandLineJoin(explorer, names, network, license);
    forall i | 0 <= i < |pieces| ensures ' ' !in pieces[i] {
      if 3 <= i < |pieces| - 4 && names != [] {
        assert pieces[i] == names[i - 3];
      }
    }
    SplitJoin(pieces, ' ');
  }
}
