/**
 * Contract tokens (`name` or `name@address`), artifact lookup and the
 * address override the batch applies before verifying.
 */
module BlockscoutArtifacts {
  import opened Optional
  import opened Text
  import opened BlockscoutTypes

  /** A parsed token: the contract name and the piece after the first `@`, if any. */
  datatype Token = Token(name: string, address: Option<string>)

  /** `const [contractName, contractAddress] = token.split("@")`. */
  function ParseToken(token: string): Token
  {
    var parts := Split(token, '@');
    Token(parts[0], if |parts| > 1 then Some(parts[1]) else None)
  }

  /**
   * The name is everything before the first `@` (the whole token when there
   * is none); the address, present exactly when the token has an `@`, is
   * everything between the first `@` and the next `@` or the end.
   */
  lemma ParseTokenParts(token: string)
    ensures var t := ParseToken(token);
      && '@' !in t.name
      && t.name <= token
      && ('@' !in token <==> t.address.None?)
      && ('@' !in token ==> t.name == token)
      && (t.address.Some? ==>
            var n, a := |t.name|, t.address.value;
            && '@' !in a
            && n + 1 + |a| <= |token|
            && token[n] == '@'
            && token[n + 1..n + 1 + |a|] == a
            && (n + 1 + |a| == |token| || token[n + 1 + |a|] == '@'))
  {
    var p := Split(token, '@');
    SplitFirst(token, '@');
    if |p| > 1 {
      var n := |p[0]|;
      var rest := token[n + 1..];
      SplitFirst(rest, '@');
      assert p[1] == Split(rest, '@')[0];
      assert token[n + 1..n + 1 + |p[1]|] == rest[..|p[1]|];
    }
  }

  /** An override applies only when the address piece is a non-empty string. */
  predicate HasOverride(t: Token)
  {
    t.address.Some? && t.address.value != ""
  }

  /** Where the artifact of a contract is looked up (path normalisation aside). */
  function ArtifactPath(buildDir: string, contractName: string): string
  {
    buildDir + "/" + contractName + ".json"
  }

  /**
   * `getArtifact`: `store` holds the artifact files of the build directory,
   * by contract name. A missing file is an error naming the contract and the
   * path; otherwise the artifact is returned as a value of its own.
   */
  function GetArtifact(store: map<string, Artifact>, contractName: string, options: Options): (r: Result<Artifact>)
    ensures r.Ok? <==> contractName in store
    ensures r.Ok? ==> r.value == store[contractName]
    ensures r.Err? ==> r.error == ArtifactNotFound(contractName, ArtifactPath(options.buildDir, contractName))
  {
    if contractName in store then Ok(store[contractName])
    else Err(ArtifactNotFound(contractName, ArtifactPath(options.buildDir, contractName)))
  }

  /**
   * The override of a `name@address` token: the network entry for
   * `networkId` is created empty when missing, and its address set. Every
   * other field of that entry, every other network and every other part of
   * the artifact stay as they were.
   */
  function OverrideAddress(a: Artifact, networkId: int, address: string): (r: Artifact)
    ensures networkId in r.networks && r.networks[networkId].address == Some(address)
    ensures networkId in a.networks ==>
      r.networks[networkId].links == a.networks[networkId].links
      && r.networks[networkId].fields == a.networks[networkId].fields
    ensures networkId !in a.networks ==>
      r.networks[networkId].links == [] && r.networks[networkId].fields == map[]
    ensures r.networks.Keys == a.networks.Keys + {networkId}
    ensures forall id :: id in a.networks && id != networkId ==> r.networks[id] == a.networks[id]
    ensures r.contractName == a.contractName && r.sourcePath == a.sourcePath
      && r.compilerVersion == a.compilerVersion
  {
    var entry := if networkId in a.networks then a.networks[networkId] else NetworkEntry(None, [], map[]);
    a.(networks := a.networks[networkId := entry.(address := Some(address))])
  }

  /**
   * The artifact the batch verifies for one token: looked up by name, with
   * the override applied when the token carries a non-empty address.
   */
  function PrepareArtifact(token: string, store: map<string, Artifact>, options: Options): (r: Result<Artifact>)
    ensures var t := ParseToken(token);
      && (r.Ok? <==> t.name in store)
      && (r.Ok? && !HasOverride(t) ==> r.value == store[t.name])
      && (r.Ok? && HasOverride(t) ==>
            options.networkId in r.value.networks
            && r.value.networks[options.networkId].address == t.address
            && r.value == OverrideAddress(store[t.name], options.networkId, t.address.value))
      && (r.Err? ==> r.error == ArtifactNotFound(t.name, ArtifactPath(options.buildDir, t.name)))
  {
    var t := ParseToken(token);
    match GetArtifact(store, t.name, options)
    case Err(e) => Err(e)
    case Ok(artifact) =>
      if HasOverride(t) then Ok(OverrideAddress(artifact, options.networkId, t.address.value))
      else Ok(artifact)
  }
}
