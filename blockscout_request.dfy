/**
 * The verify request: the flattened source with its license header, the
 * fixed form fields and the linked-library slots.
 */
module BlockscoutRequest {
  import opened Optional
  import opened Text
  import opened BlockscoutTypes

  /** The SPDX short-identifier marker the verifier prepends and counts. */
  const Marker: string := "SPDX-License-Identifier:"

  /** The line (and blank line) prepended when a license is given. */
  function LicenseHeader(license: string): string
  {
    "// " + Marker + " " + license + "\n\n"
  }

  /**
   * `fetchMergedSource`: the source file must exist; the flattened text
   * gets the license header when a license is given; a text with more than
   * one marker is refused.
   */
  function MergedSource(a: Artifact, license: Option<string>, ex: Exchange): Result<string>
  {
    if !ex.sourceExists then Err(SourceNotFound(a.contractName, a.sourcePath))
    else
      var text := if Given(license) then LicenseHeader(license.value) + ex.flattened else ex.flattened;
      if Count(text, Marker) <= 1 then Ok(text) else Err(DuplicateLicense)
  }

  /** Regrouping a concatenation of five pieces and a rest. */
  lemma Reassociate(a: string, b: string, c: string, d: string, e: string, rest: string)
    ensures a + b + c + d + e + rest == a + (b + (c + (d + e + rest)))
  {
  }

  /** The header holds one marker, and none can start inside its fixed parts. */
  lemma HeaderCount(license: string, rest: string)
    ensures Count(LicenseHeader(license) + rest, Marker) == 1 + Count(license + "\n\n" + rest, Marker)
  {
    var tail := license + "\n\n" + rest;
    Reassociate("// ", Marker, " ", license, "\n\n", rest);
    assert Marker[0] == 'S';
    CountSkipPrefix("// ", Marker + (" " + tail), Marker);
    CountMatchHead(Marker, " " + tail);
    CountSkipPrefix(" ", tail, Marker);
  }

  /**
   * What `fetchMergedSource` accepts and returns: a missing source file is
   * reported first; without a license the flattened text passes unchanged
   * exactly when it holds at most one marker; with a license the result is
   * the header followed by the flattened text, accepted exactly when no
   * further marker follows the header's, and then it holds exactly one.
   */
  lemma {:induction false} MergedSourceMarkers(a: Artifact, license: Option<string>, ex: Exchange)
    ensures var r := MergedSource(a, license, ex);
      && (!ex.sourceExists ==> r == Err(SourceNotFound(a.contractName, a.sourcePath)))
      && (ex.sourceExists && r.Err? ==> r.error == DuplicateLicense)
      && (r.Ok? ==> Count(r.value, Marker) <= 1)
      && (ex.sourceExists && !Given(license) ==>
            (r.Ok? <==> Count(ex.flattened, Marker) <= 1) && (r.Ok? ==> r.value == ex.flattened))
      && (ex.sourceExists && Given(license) ==>
            && (r.Ok? <==> !Contains(license.value + "\n\n" + ex.flattened, Marker))
            && (r.Ok? ==> r.value == LicenseHeader(license.value) + ex.flattened
                          && Count(r.value, Marker) == 1))
  {
    if ex.sourceExists && Given(license) {
      HeaderCount(license.value, ex.flattened);
      CountZeroIff(license.value + "\n\n" + ex.flattened, Marker);
    }
  }

  /**
   * With a license that is itself no marker, and a flattened text from
   * which every marker was stripped, the source is accepted and carries
   * exactly the one marker of its header.
   */
  lemma LicensedSourceHasOneMarker(a: Artifact, license: string, ex: Exchange)
    requires ex.sourceExists && license != ""
    requires !Contains(license, Marker) && !Contains(ex.flattened, Marker)
    ensures MergedSource(a, Some(license), ex) == Ok(LicenseHeader(license) + ex.flattened)
    ensures Count(LicenseHeader(license) + ex.flattened, Marker) == 1
  {
    NoOccurrenceAcross(license, "\n\n", ex.flattened, Marker);
    MergedSourceMarkers(a, Some(license), ex);
  }

  /** `extractCompilerVersion`: the metadata's compiler version behind a `v`. */
  function CompilerVersion(a: Artifact): string
  {
    "v" + a.compilerVersion
  }

  /** `options.evmVersion || "default"`. */
  function EvmVersion(target: Option<string>): string
  {
    if Given(target) then target.value else "default"
  }

  function AddressValue(address: Option<string>): JsValue
  {
    if address.Some? then Str(address.value) else Undefined
  }

  /**
   * `postQueries`: the fixed fields of the verify request and the slot
   * fields (`library{i}Name`, `library{i}Address`) the libraries add.
   */
  datatype Form = Form(
    apiModule: string,                     // module
    action: string,
    addressHash: JsValue,
    contractSourceCode: string,
    name: string,
    compilerVersion: string,
    optimization: bool,
    optimizationRuns: int,
    autodetectConstructorArguments: bool,
    evmVersion: string,
    slots: map<string, string>)

  /** `postQueries` before the libraries are linked. */
  function BaseForm(a: Artifact, entry: NetworkEntry, options: Options, source: string): Form
  {
    Form(
      apiModule := "contract",
      action := "verify",
      addressHash := AddressValue(entry.address),
      contractSourceCode := source,
      name := a.contractName,
      compilerVersion := CompilerVersion(a),
      optimization := options.optimizationUsed,
      optimizationRuns := options.runs,
      autodetectConstructorArguments := true,
      evmVersion := EvmVersion(options.evmVersion),
      slots := map[])
  }

  /** The explorer API's number of library slots. */
  const MaxLibraries: nat := 5

  function SlotDigit(i: nat): char
    requires i < MaxLibraries
  {
    ('1' as int + i) as char
  }

  /** `library{i+1}Name` */
  function NameKey(i: nat): string
    requires i < MaxLibraries
  {
    "library" + [SlotDigit(i)] + "Name"
  }

  /** `library{i+1}Address` */
  function AddressKey(i: nat): string
    requires i < MaxLibraries
  {
    "library" + [SlotDigit(i)] + "Address"
  }

  lemma SlotKeysDistinct(i: nat, j: nat)
    requires i < MaxLibraries && j < MaxLibraries
    ensures NameKey(i) != AddressKey(j)
    ensures NameKey(i) == NameKey(j) ==> i == j
    ensures AddressKey(i) == AddressKey(j) ==> i == j
  {
    assert NameKey(i)[7] == SlotDigit(i) && NameKey(j)[7] == SlotDigit(j);
    assert AddressKey(i)[7] == SlotDigit(i) && AddressKey(j)[7] == SlotDigit(j);
  }

  /** The slot keys of the libraries at positions `lo` up to `hi`. */
  ghost function SlotKeys(lo: nat, hi: nat): set<string>
    requires hi <= MaxLibraries
  {
    (set i: nat | lo <= i < hi :: NameKey(i)) + (set i: nat | lo <= i < hi :: AddressKey(i))
  }

  /** Peeling the first slot pair off a range of slot keys. */
  lemma SlotKeysStep(from: nat, hi: nat)
    requires from < hi <= MaxLibraries
    ensures SlotKeys(from, hi) == {NameKey(from), AddressKey(from)} + SlotKeys(from + 1, hi)
    ensures NameKey(from) !in SlotKeys(from + 1, hi) && AddressKey(from) !in SlotKeys(from + 1, hi)
    ensures NameKey(from) != AddressKey(from)
  {
    forall i: nat | from < i < hi
      ensures NameKey(from) != NameKey(i) && AddressKey(from) != AddressKey(i)
      ensures NameKey(from) != AddressKey(i) && AddressKey(from) != NameKey(i)
    {
      SlotKeysDistinct(from, i);
      SlotKeysDistinct(i, from);
    }
    SlotKeysDistinct(from, from);
  }

  /** One library written into its slot pair. */
  function FillOne(q: map<string, string>, links: seq<Link>, from: nat): map<string, string>
    requires from < |links| <= MaxLibraries
  {
    q[NameKey(from) := links[from].name][AddressKey(from) := links[from].address]
  }

  /** The libraries from position `from` on, each written into its slot pair. */
  function FillSlots(q: map<string, string>, links: seq<Link>, from: nat): map<string, string>
    requires |links| <= MaxLibraries && from <= |links|
    decreases |links| - from
  {
    if from == |links| then q else FillSlots(FillOne(q, links, from), links, from + 1)
  }

  /** The libraries added to the request, or the error for more than five. */
  function WithLibraries(form: Form, links: seq<Link>): Result<Form>
  {
    if |links| > MaxLibraries then Err(TooManyLibraries)
    else Ok(form.(slots := FillSlots(form.slots, links, 0)))
  }

  /** Filling from position `from` adds exactly the slot keys of the later libraries. */
  lemma {:induction false} FillSlotsKeys(q: map<string, string>, links: seq<Link>, from: nat)
    requires |links| <= MaxLibraries && from <= |links|
    ensures FillSlots(q, links, from).Keys == q.Keys + SlotKeys(from, |links|)
    decreases |links| - from
  {
    if from < |links| {
      FillSlotsKeys(FillOne(q, links, from), links, from + 1);
      SlotKeysStep(from, |links|);
    }
  }

  /** Filling from position `from` leaves a key outside those slots as it was. */
  lemma {:induction false} FillSlotsKeep(q: map<string, string>, links: seq<Link>, from: nat, k: string)
    requires |links| <= MaxLibraries && from <= |links|
    requires k in q && k !in SlotKeys(from, |links|)
    ensures k in FillSlots(q, links, from) && FillSlots(q, links, from)[k] == q[k]
    decreases |links| - from
  {
    if from < |links| {
      SlotKeysStep(from, |links|);
      FillSlotsKeep(FillOne(q, links, from), links, from + 1, k);
    }
  }

  /** Filling from position `from` puts library `i` into slot pair `i`, for every later `i`. */
  lemma {:induction false} FillSlotsValue(q: map<string, string>, links: seq<Link>, from: nat, i: nat)
    requires |links| <= MaxLibraries && from <= i < |links|
    ensures var r := FillSlots(q, links, from);
      NameKey(i) in r && AddressKey(i) in r
      && r[NameKey(i)] == links[i].name && r[AddressKey(i)] == links[i].address
    decreases |links| - from
  {
    var q' := FillOne(q, links, from);
    if i == from {
      SlotKeysStep(from, |links|);
      FillSlotsKeep(q', links, from + 1, NameKey(i));
      FillSlotsKeep(q', links, from + 1, AddressKey(i));
    } else {
      FillSlotsValue(q', links, from + 1, i);
    }
  }

  /**
   * The linked libraries fill `library1..` in entry order: slot pair `i+1`
   * holds the `i`-th library's name and address, no other slot exists and
   * the fixed fields are untouched. More than five libraries is an error.
   */
  lemma LibrarySlots(form: Form, links: seq<Link>)
    requires form.slots == map[]
    ensures |links| > MaxLibraries <==> WithLibraries(form, links) == Err(TooManyLibraries)
    ensures |links| <= MaxLibraries ==>
      var r := WithLibraries(form, links).value;
      && r.slots.Keys == SlotKeys(0, |links|)
      && (forall i: nat :: i < |links| ==>
            r.slots[NameKey(i)] == links[i].name && r.slots[AddressKey(i)] == links[i].address)
      && r.(slots := map[]) == form
  {
    if |links| <= MaxLibraries {
      FillSlotsKeys(form.slots, links, 0);
      forall i: nat | i < |links|
        ensures var r := FillSlots(form.slots, links, 0);
          r[NameKey(i)] == links[i].name && r[AddressKey(i)] == links[i].address
      {
        FillSlotsValue(form.slots, links, 0, i);
      }
    }
  }

  /**
   * The `forEach` over the network entry's links: each library goes into
   * the next slot pair, and the sixth one raises before anything is sent.
   */
  method LinkLibraries(form: Form, links: seq<Link>) returns (r: Result<Form>)
    ensures r == WithLibraries(form, links)
  {
    var q := form.slots;
    for i := 0 to |links|
      invariant i <= MaxLibraries
      invariant |links| <= MaxLibraries ==> FillSlots(q, links, i) == FillSlots(form.slots, links, 0)
    {
      if i >= MaxLibraries {
        return Err(TooManyLibraries);
      }
      q := q[NameKey(i) := links[i].name][AddressKey(i) := links[i].address];
    }
    r := Ok(form.(slots := q));
  }

  /** The complete form of the verify request, or the error raised while building it. */
  function RequestForm(a: Artifact, options: Options, ex: Exchange): Result<Form>
    requires options.networkId in a.networks
  {
    match MergedSource(a, options.license, ex)
    case Err(e) => Err(e)
    case Ok(source) =>
      var entry := a.networks[options.networkId];
      WithLibraries(BaseForm(a, entry, options, source), entry.links)
  }

  /**
   * `sendVerifyRequest` up to the POST: the merged source, the fixed fields
   * and the library slots, built in that order.
   */
  method SendVerifyRequest(a: Artifact, options: Options, ex: Exchange) returns (r: Result<Form>)
    requires options.networkId in a.networks
    ensures r == RequestForm(a, options, ex)
  {
    var merged := MergedSource(a, options.license, ex);
    if merged.Err? {
      return Err(merged.error);
    }
    var entry := a.networks[options.networkId];
    var form := BaseForm(a, entry, options, merged.value);
    r := LinkLibraries(form, entry.links);
  }

  /**
   * The request that is built: the contract's address and name, the merged
   * source, `v` and the compiler version, the optimizer settings,
   * constructor-argument autodetection, the EVM version or `"default"`, and
   * one slot pair per linked library in entry order. It is built exactly
   * when the source is accepted and there are at most five libraries.
   */
  lemma RequestFormSpec(a: Artifact, options: Options, ex: Exchange)
    requires options.networkId in a.networks
    ensures var r := RequestForm(a, options, ex);
      var entry := a.networks[options.networkId];
      var source := MergedSource(a, options.license, ex);
      && (r.Ok? <==> source.Ok? && |entry.links| <= MaxLibraries)
      && (source.Err? ==> r == Err(source.error))
      && (source.Ok? && |entry.links| > MaxLibraries ==> r == Err(TooManyLibraries))
      && (r.Ok? ==>
            && r.value.apiModule == "contract"
            && r.value.action == "verify"
            && r.value.addressHash == (if entry.address.Some? then Str(entry.address.value) else Undefined)
            && r.value.contractSourceCode == source.value
            && r.value.name == a.contractName
            && r.value.compilerVersion == "v" + a.compilerVersion
            && r.value.optimization == options.optimizationUsed
            && r.value.optimizationRuns == options.runs
            && r.value.autodetectConstructorArguments
            && r.value.evmVersion == (if Given(options.evmVersion) then options.evmVersion.value else "default")
            && r.value.slots.Keys == SlotKeys(0, |entry.links|)
            && (forall i: nat :: i < |entry.links| ==>
                  r.value.slots[NameKey(i)] == entry.links[i].name
                  && r.value.slots[AddressKey(i)] == entry.links[i].address))
  {
    var source := MergedSource(a, options.license, ex);
    if source.Ok? {
      var entry := a.networks[options.networkId];
      LibrarySlots(BaseForm(a, entry, options, source.value), entry.links);
    }
  }
}
