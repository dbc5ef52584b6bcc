// The .lva container: a 44-byte header whose checksum is patched in place after
// the body has been written, and the verifier that reads it back.
module Package {
  import opened Basics

  // ---- manifest ----

  datatype Field =
    | Name | Version | Description | Author | CreatedAt | BaseImage | GpuDriver | GpuRequired
    | MemoryMb | CpuCores | DiskGb | Layers | TotalSizeMb | Sha256 | Tags
    | MinHostMemoryMb | MinHostCpuCores | Platform
    | Unknown(key: string)

  /** A JSON value; object keys are the manifest's field names or any other key. */
  datatype Value =
    | Null | Bool(flag: bool) | Num(number: real) | Str(text: string)
    | List(items: seq<Value>) | Dict(fields: map<Field, Value>)

  datatype Identity = Identity(name: Value, version: Value, description: Value, author: Value, createdAt: Value)
  datatype Image = Image(baseImage: Value, gpuDriver: Value, gpuRequired: Value)
  datatype Resources = Resources(memoryMb: Value, cpuCores: Value, diskGb: Value)
  datatype Files = Files(layers: Value, totalSizeMb: Value, sha256: Value)
  datatype Metadata = Metadata(tags: Value, minHostMemoryMb: Value, minHostCpuCores: Value, platform: Value)

  /** The manifest's fields, section by section. */
  datatype Manifest = Manifest(identity: Identity, image: Image, resources: Resources, files: Files, metadata: Metadata)

  function FieldNames(): (names: set<Field>)
    ensures forall f :: f in names <==> !f.Unknown?
  {
    {Name, Version, Description, Author, CreatedAt, BaseImage, GpuDriver, GpuRequired,
     MemoryMb, CpuCores, DiskGb, Layers, TotalSizeMb, Sha256, Tags, MinHostMemoryMb, MinHostCpuCores, Platform}
  }

  function FieldOf(m: Manifest, f: Field): Value
    requires !f.Unknown?
  {
    match f
    case Name => m.identity.name
    case Version => m.identity.version
    case Description => m.identity.description
    case Author => m.identity.author
    case CreatedAt => m.identity.createdAt
    case BaseImage => m.image.baseImage
    case GpuDriver => m.image.gpuDriver
    case GpuRequired => m.image.gpuRequired
    case MemoryMb => m.resources.memoryMb
    case CpuCores => m.resources.cpuCores
    case DiskGb => m.resources.diskGb
    case Layers => m.files.layers
    case TotalSizeMb => m.files.totalSizeMb
    case Sha256 => m.files.sha256
    case Tags => m.metadata.tags
    case MinHostMemoryMb => m.metadata.minHostMemoryMb
    case MinHostCpuCores => m.metadata.minHostCpuCores
    case Platform => m.metadata.platform
  }

  /** Every field under its own name. */
  function ToDict(m: Manifest): map<Field, Value> {
    map f | f in FieldNames() :: FieldOf(m, f)
  }

  /** What a field left out of a dictionary is set to. */
  function Default(f: Field, now: Value): Value {
    match f
    case CreatedAt => now
    case GpuRequired => Bool(false)
    case MemoryMb => Num(8192.0)
    case CpuCores => Num(4.0)
    case DiskGb => Num(100.0)
    case TotalSizeMb => Num(0.0)
    case MinHostMemoryMb => Num(4096.0)
    case MinHostCpuCores => Num(2.0)
    case Layers => List([])
    case Tags => List([])
    case Platform => Str("windows-x64")
    case _ => Str("")
  }

  function Get(d: map<Field, Value>, f: Field, default: Value): Value {
    if f in d then d[f] else default
  }

  function Take(d: map<Field, Value>, f: Field, now: Value): Value { Get(d, f, Default(f, now)) }

  function TakeIdentity(d: map<Field, Value>, now: Value): Identity
    requires Name in d && Version in d
  {
    Identity(d[Name], d[Version], Take(d, Description, now), Take(d, Author, now), Take(d, CreatedAt, now))
  }

  function TakeImage(d: map<Field, Value>, now: Value): Image {
    Image(Take(d, BaseImage, now), Take(d, GpuDriver, now), Take(d, GpuRequired, now))
  }

  function TakeResources(d: map<Field, Value>, now: Value): Resources {
    Resources(Take(d, MemoryMb, now), Take(d, CpuCores, now), Take(d, DiskGb, now))
  }

  function TakeFiles(d: map<Field, Value>, now: Value): Files {
    Files(Take(d, Layers, now), Take(d, TotalSizeMb, now), Take(d, Sha256, now))
  }

  function TakeMetadata(d: map<Field, Value>, now: Value): Metadata {
    Metadata(Take(d, Tags, now), Take(d, MinHostMemoryMb, now), Take(d, MinHostCpuCores, now), Take(d, Platform, now))
  }

  /** Builds a manifest from a dictionary: unknown keys are dropped, missing ones defaulted, two are mandatory. */
  function FromDict(d: map<Field, Value>, now: Value): (r: Option<Manifest>)
    ensures r.Some? <==> Name in d && Version in d
  {
    if Name !in d || Version !in d then None
    else
      Some(Manifest(TakeIdentity(d, now), TakeImage(d, now), TakeResources(d, now), TakeFiles(d, now), TakeMetadata(d, now)))
  }

  /** The dictionary holds at least what to_dict writes. */
  ghost predicate Extends(d: map<Field, Value>, m: Manifest) {
    forall f :: f in ToDict(m) ==> f in d && d[f] == ToDict(m)[f]
  }

  lemma WrittenField(m: Manifest, d: map<Field, Value>, f: Field, now: Value)
    requires !f.Unknown? && Extends(d, m)
    ensures f in d && d[f] == Take(d, f, now) == FieldOf(m, f)
  {
    hide FieldOf, Default, FieldNames;
    assert f in ToDict(m);
  }

  lemma IdentityRoundTrip(m: Manifest, d: map<Field, Value>, now: Value)
    requires Extends(d, m)
    ensures Name in d && Version in d && TakeIdentity(d, now) == m.identity
  {
    hide Default, FieldNames, ToDict, Take, Extends;
    WrittenField(m, d, Name, now);
    WrittenField(m, d, Version, now);
    WrittenField(m, d, Description, now);
    WrittenField(m, d, Author, now);
    WrittenField(m, d, CreatedAt, now);
  }

  lemma ImageRoundTrip(m: Manifest, d: map<Field, Value>, now: Value)
    requires Extends(d, m)
    ensures TakeImage(d, now) == m.image
  {
    hide Default, FieldNames, ToDict, Take, Extends;
    WrittenField(m, d, BaseImage, now);
    WrittenField(m, d, GpuDriver, now);
    WrittenField(m, d, GpuRequired, now);
  }

  lemma ResourcesRoundTrip(m: Manifest, d: map<Field, Value>, now: Value)
    requires Extends(d, m)
    ensures TakeResources(d, now) == m.resources
  {
    hide Default, FieldNames, ToDict, Take, Extends;
    WrittenField(m, d, MemoryMb, now);
    WrittenField(m, d, CpuCores, now);
    WrittenField(m, d, DiskGb, now);
  }

  lemma FilesRoundTrip(m: Manifest, d: map<Field, Value>, now: Value)
    requires Extends(d, m)
    ensures TakeFiles(d, now) == m.files
  {
    hide Default, FieldNames, ToDict, Take, Extends;
    WrittenField(m, d, Layers, now);
    WrittenField(m, d, TotalSizeMb, now);
    WrittenField(m, d, Sha256, now);
  }

  lemma MetadataRoundTrip(m: Manifest, d: map<Field, Value>, now: Value)
    requires Extends(d, m)
    ensures TakeMetadata(d, now) == m.metadata
  {
    hide Default, FieldNames, ToDict, Take, Extends;
    WrittenField(m, d, Tags, now);
    WrittenField(m, d, MinHostMemoryMb, now);
    WrittenField(m, d, MinHostCpuCores, now);
    WrittenField(m, d, Platform, now);
  }

  /** Any dictionary that extends what to_dict wrote reads back as the same manifest. */
  lemma ManifestRoundTrip(m: Manifest, d: map<Field, Value>, now: Value)
    requires Extends(d, m)
    ensures FromDict(d, now) == Some(m)
  {
    hide Extends, TakeIdentity, TakeImage, TakeResources, TakeFiles, TakeMetadata;
    IdentityRoundTrip(m, d, now);
    ImageRoundTrip(m, d, now);
    ResourcesRoundTrip(m, d, now);
    FilesRoundTrip(m, d, now);
    MetadataRoundTrip(m, d, now);
  }

  /** A dictionary of name and version alone gives the defaults of the manifest; without either of them there is none. */
  lemma BareManifest(d: map<Field, Value>, now: Value)
    requires forall f :: f in d && !f.Unknown? ==> f.Name? || f.Version?
    ensures FromDict(d, now) ==
      if Name in d && Version in d then
        Some(Manifest(
          Identity(d[Name], d[Version], Str(""), Str(""), now),
          Image(Str(""), Str(""), Bool(false)),
          Resources(Num(8192.0), Num(4.0), Num(100.0)),
          Files(List([]), Num(0.0), Str("")),
          Metadata(List([]), Num(4096.0), Num(2.0), Str("windows-x64"))))
      else None
  {
    hide Default, TakeIdentity, TakeImage, TakeResources, TakeFiles, TakeMetadata;
    if Name in d && Version in d {
      BareIdentity(d, now);
      BareImage(d, now);
      BareResources(d, now);
      BareFiles(d, now);
      BareMetadata(d, now);
    }
  }

  ghost predicate NoField(d: map<Field, Value>, fields: set<Field>) { forall f :: f in fields ==> f !in d }

  lemma BareIdentity(d: map<Field, Value>, now: Value)
    requires NoField(d, {Description, Author, CreatedAt})
    requires Name in d && Version in d
    ensures TakeIdentity(d, now) == Identity(d[Name], d[Version], Str(""), Str(""), now)
  {
  }

  lemma BareImage(d: map<Field, Value>, now: Value)
    requires NoField(d, {BaseImage, GpuDriver, GpuRequired})
    ensures TakeImage(d, now) == Image(Str(""), Str(""), Bool(false))
  {
  }

  lemma BareResources(d: map<Field, Value>, now: Value)
    requires NoField(d, {MemoryMb, CpuCores, DiskGb})
    ensures TakeResources(d, now) == Resources(Num(8192.0), Num(4.0), Num(100.0))
  {
  }

  lemma BareFiles(d: map<Field, Value>, now: Value)
    requires NoField(d, {Layers, TotalSizeMb, Sha256})
    ensures TakeFiles(d, now) == Files(List([]), Num(0.0), Str(""))
  {
  }

  lemma BareMetadata(d: map<Field, Value>, now: Value)
    requires NoField(d, {Tags, MinHostMemoryMb, MinHostCpuCores, Platform})
    ensures TakeMetadata(d, now) == Metadata(List([]), Num(4096.0), Num(2.0), Str("windows-x64"))
  {
  }

  /** A field is what the dictionary gives for it, or else its default. */
  lemma TakenField(d: map<Field, Value>, f: Field, now: Value)
    requires Name in d && Version in d && !f.Unknown?
    ensures FromDict(d, now).Some? && FieldOf(FromDict(d, now).value, f) == Take(d, f, now)
  {
    hide Default;
  }

  /** One field set decides its own value and no other's; keys that are no field decide nothing. */
  lemma FieldDecidesItself(d: map<Field, Value>, f: Field, v: Value, now: Value)
    requires Name in d && Version in d
    ensures FromDict(d, now).Some? && FromDict(d[f := v], now).Some?
    ensures forall g: Field :: !g.Unknown? ==>
      FieldOf(FromDict(d[f := v], now).value, g) == if g == f then v else FieldOf(FromDict(d, now).value, g)
  {
    hide FieldOf, FromDict, Default;
    forall g: Field | !g.Unknown?
      ensures FieldOf(FromDict(d[f := v], now).value, g) == if g == f then v else FieldOf(FromDict(d, now).value, g)
    {
      TakenField(d[f := v], g, now);
      TakenField(d, g, now);
    }
  }

  // ---- layout ----

  const HEADER_SIZE := 44
  const CHECKSUM_AT := 12
  const TWO_TO_THE_32 := 0x1_0000_0000

  function Magic(): seq<byte> { [0x4C, 0x56, 0x41, 0x31] }

  /** Little-endian, 32 bits. */
  function Le32(n: nat): (s: seq<byte>)
    requires n < TWO_TO_THE_32
    ensures |s| == 4
  {
    [(n % 256) as byte, (n / 256 % 256) as byte, (n / 65536 % 256) as byte, (n / 16777216) as byte]
  }

  function FromLe32(s: seq<byte>): (n: nat)
    requires |s| == 4
    ensures n < TWO_TO_THE_32
  {
    s[0] as nat + 256 * s[1] as nat + 65536 * s[2] as nat + 16777216 * s[3] as nat
  }

  lemma Le32RoundTrip(n: nat)
    requires n < TWO_TO_THE_32
    ensures FromLe32(Le32(n)) == n
  {
    assert n / 65536 == n / 256 / 256 && n / 16777216 == n / 256 / 256 / 256;
  }

  lemma Le32Onto(s: seq<byte>)
    requires |s| == 4
    ensures Le32(FromLe32(s)) == s
  {
    var a, b, c, d := s[0] as nat, s[1] as nat, s[2] as nat, s[3] as nat;
    var n := FromLe32(s);
    assert n == a + 256 * (b + 256 * (c + 256 * d));
    assert n / 256 == b + 256 * (c + 256 * d) && n / 256 / 256 == c + 256 * d && n / 256 / 256 / 256 == d;
    assert n / 65536 == n / 256 / 256 && n / 16777216 == n / 256 / 256 / 256;
  }

  /** The least significant byte comes first. */
  lemma LittleEndian(s: seq<byte>)
    requires |s| == 4
    ensures FromLe32(s) % 256 == s[0] as nat && FromLe32(s) / 16777216 == s[3] as nat
    ensures FromLe32(s) / 256 % 256 == s[1] as nat && FromLe32(s) / 65536 % 256 == s[2] as nat
  {
    Le32Onto(s);
    var n := FromLe32(s);
    hide FromLe32;
    assert Le32(n)[0] == s[0] && Le32(n)[1] == s[1] && Le32(n)[2] == s[2] && Le32(n)[3] == s[3];
  }

  /** Magic, version 1, no flags, and the length of the manifest. */
  function Preamble(length: nat): (s: seq<byte>)
    requires length < TWO_TO_THE_32
    ensures |s| == CHECKSUM_AT
  {
    Magic() + [1, 0] + [0, 0] + Le32(length)
  }

  /** A digest of 32 bytes. */
  ghost predicate IsDigest(h: seq<byte> -> seq<byte>) { forall s :: |h(s)| == 32 }

  /** The bytes of a finished package. */
  function PackageOf(manifest: seq<byte>, payload: seq<byte>, h: seq<byte> -> seq<byte>): seq<byte>
    requires |manifest| < TWO_TO_THE_32
  {
    Preamble(|manifest|) + h(manifest + payload) + manifest + payload
  }

  // ---- verification ----

  datatype Verdict =
    | Accepted(name: Value, version: Value, layers: nat, size: Value)
    | BadMagic
    | ChecksumMismatch
    | Failed

  /** len() of a JSON value; numbers, booleans and null have none. */
  function Length(v: Value): Option<nat> {
    match v
    case Str(text) => Some(|text|)
    case List(items) => Some(|items|)
    case Dict(fields) => Some(|fields|)
    case _ => None
  }

  function Summary(v: Value): Verdict {
    if !v.Dict? || Length(Get(v.fields, Layers, List([]))).None? then Failed
    else Accepted(Get(v.fields, Name, Null), Get(v.fields, Version, Null),
                  Length(Get(v.fields, Layers, List([]))).value, Get(v.fields, TotalSizeMb, Num(0.0)))
  }

  function Least(a: nat, b: nat): nat { if a < b then a else b }

  /** The bytes a read of `n` returns at `pos`: fewer at the end of the file. */
  function ReadAt(file: seq<byte>, pos: nat, n: nat): (s: seq<byte>)
    requires pos <= |file|
    ensures |s| == Least(n, |file| - pos)
  {
    file[pos..pos + Least(n, |file| - pos)]
  }

  function ManifestBytes(file: seq<byte>): seq<byte>
    requires |file| >= HEADER_SIZE
  {
    ReadAt(file, HEADER_SIZE, FromLe32(file[8..12]))
  }

  function VerifyBytes(file: seq<byte>, h: seq<byte> -> seq<byte>, dec: seq<byte> -> Option<Value>): Verdict {
    if file[..Least(4, |file|)] != Magic() then BadMagic
    else if |file| < HEADER_SIZE then Failed
    else
      match dec(ManifestBytes(file))
      case None => Failed
      case Some(v) => if file[CHECKSUM_AT..HEADER_SIZE] != h(file[HEADER_SIZE..]) then ChecksumMismatch else Summary(v)
  }

  /** Whatever was packed verifies, and reports the manifest's own name, version, layer count and size. */
  lemma RoundTrip(m: Manifest, encoded: seq<byte>, payload: seq<byte>,
                  h: seq<byte> -> seq<byte>, dec: seq<byte> -> Option<Value>)
    requires IsDigest(h) && |encoded| < TWO_TO_THE_32
    requires dec(encoded) == Some(Dict(ToDict(m))) && m.files.layers.List?
    ensures VerifyBytes(PackageOf(encoded, payload, h), h, dec) ==
      Accepted(m.identity.name, m.identity.version, |m.files.layers.items|, m.files.totalSizeMb)
  {
    SummaryOf(m);
    hide ToDict, Summary, FromLe32, Le32, Magic;
    var file := PackageOf(encoded, payload, h);
    var preamble := Preamble(|encoded|);
    assert preamble[..4] == Magic() && preamble[8..12] == Le32(|encoded|);
    assert file[..4] == preamble[..4] && file[8..12] == preamble[8..12];
    assert file[CHECKSUM_AT..HEADER_SIZE] == h(encoded + payload);
    assert file[HEADER_SIZE..] == encoded + payload;
    Le32RoundTrip(|encoded|);
    assert ManifestBytes(file) == encoded;
  }

  lemma SummaryOf(m: Manifest)
    requires m.files.layers.List?
    ensures Summary(Dict(ToDict(m))) == Accepted(m.identity.name, m.identity.version, |m.files.layers.items|, m.files.totalSizeMb)
  {
    hide FieldNames;
    var d := ToDict(m);
    assert d[Name] == m.identity.name && d[Version] == m.identity.version;
    assert d[Layers] == m.files.layers && d[TotalSizeMb] == m.files.totalSizeMb;
  }

  /**
    A file is accepted exactly when it has a whole header with the magic, everything after the header hashes to the
    stored checksum, and the manifest cut out by the length field parses to an object; the length decides only that cut.
   */
  lemma AcceptedIff(file: seq<byte>, h: seq<byte> -> seq<byte>, dec: seq<byte> -> Option<Value>)
    ensures VerifyBytes(file, h, dec).Accepted? <==>
      && |file| >= HEADER_SIZE && file[..4] == Magic()
      && h(file[HEADER_SIZE..]) == file[CHECKSUM_AT..HEADER_SIZE]
      && exists v :: dec(ManifestBytes(file)) == Some(v) && Summary(v).Accepted?
  {
    if |file| >= 4 {
      assert file[..Least(4, |file|)] == file[..4];
    }
  }

  /**
    And what each refusal says: the magic is checked first, a file that ends inside the header fails, then the
    manifest must parse, then the checksum must match, and only then is the manifest looked at.
   */
  lemma RefusedIff(file: seq<byte>, h: seq<byte> -> seq<byte>, dec: seq<byte> -> Option<Value>)
    ensures var v := VerifyBytes(file, h, dec);
      var magic := |file| >= 4 && file[0] == 0x4C && file[1] == 0x56 && file[2] == 0x41 && file[3] == 0x31;
      var parses := |file| >= HEADER_SIZE && dec(ManifestBytes(file)).Some?;
      && (v.BadMagic? <==> !magic)
      && (v.ChecksumMismatch? <==> magic && parses && h(file[HEADER_SIZE..]) != file[CHECKSUM_AT..HEADER_SIZE])
      && (v.Failed? <==>
            && magic
            && (parses ==>
                  && h(file[HEADER_SIZE..]) == file[CHECKSUM_AT..HEADER_SIZE]
                  && Summary(dec(ManifestBytes(file)).value).Failed?))
  {
    MagicIs(file);
    hide Magic, Summary, FromLe32;
    if |file| >= HEADER_SIZE && dec(ManifestBytes(file)).Some? {
      SummaryIs(dec(ManifestBytes(file)).value);
    }
  }

  lemma MagicIs(file: seq<byte>)
    ensures file[..Least(4, |file|)] == Magic() <==>
      |file| >= 4 && file[0] == 0x4C && file[1] == 0x56 && file[2] == 0x41 && file[3] == 0x31
  {
    var start := file[..Least(4, |file|)];
    if start == Magic() { assert |start| == 4; assert start[0] == 0x4C && start[1] == 0x56 && start[2] == 0x41 && start[3] == 0x31; }
  }

  /** A parsed manifest is summed up exactly when it is an object whose layers, if given, have a length. */
  lemma SummaryIs(v: Value)
    ensures Summary(v).Accepted? || Summary(v).Failed?
    ensures Summary(v).Accepted? <==>
      && v.Dict?
      && (Layers in v.fields ==> v.fields[Layers].Str? || v.fields[Layers].List? || v.fields[Layers].Dict?)
    ensures v.Dict? && Layers !in v.fields ==> Summary(v).Accepted? && Summary(v).layers == 0
    ensures Summary(v).Accepted? && Layers in v.fields ==>
      Summary(v).layers == match v.fields[Layers]
        case Str(text) => |text|
        case List(items) => |items|
        case Dict(fields) => |fields|
        case _ => 0
    ensures v.Dict? && Name !in v.fields ==> Summary(v).Accepted? ==> Summary(v).name == Null
    ensures v.Dict? && Version !in v.fields ==> Summary(v).Accepted? ==> Summary(v).version == Null
    ensures v.Dict? && TotalSizeMb !in v.fields ==> Summary(v).Accepted? ==> Summary(v).size == Num(0.0)
  {
  }

  /** Where everything lies in a finished package. */
  lemma PackageLayout(manifest: seq<byte>, payload: seq<byte>, h: seq<byte> -> seq<byte>)
    requires IsDigest(h) && |manifest| < TWO_TO_THE_32
    ensures var file := PackageOf(manifest, payload, h);
      && |file| == 44 + |manifest| + |payload|
      && file[..4] == [0x4C, 0x56, 0x41, 0x31]
      && file[4..8] == [1, 0, 0, 0]
      && FromLe32(file[8..12]) == |manifest|
      && file[12..44] == h(manifest + payload)
      && file[44..44 + |manifest|] == manifest
      && file[44 + |manifest|..] == payload
  {
    Le32RoundTrip(|manifest|);
    hide Le32, FromLe32;
    var file, preamble := PackageOf(manifest, payload, h), Preamble(|manifest|);
    assert preamble[..4] == Magic() && preamble[4..8] == [1, 0, 0, 0] && preamble[8..12] == Le32(|manifest|);
    assert file[..4] == preamble[..4] && file[4..8] == preamble[4..8] && file[8..12] == preamble[8..12];
  }

  /** Every accepted file of version 1 without flags whose length field fits is the package of its own two parts. */
  lemma AcceptedIsPackage(file: seq<byte>, h: seq<byte> -> seq<byte>, dec: seq<byte> -> Option<Value>)
    requires VerifyBytes(file, h, dec).Accepted? && file[4..8] == [1, 0, 0, 0]
    requires FromLe32(file[8..12]) <= |file| - HEADER_SIZE
    ensures var n := FromLe32(file[8..12]);
      file == PackageOf(file[HEADER_SIZE..HEADER_SIZE + n], file[HEADER_SIZE + n..], h)
  {
    AcceptedIff(file, h, dec);
    Le32Onto(file[8..12]);
    hide FromLe32, Le32, Magic, Summary, VerifyBytes;
    var n := FromLe32(file[8..12]);
    var manifest, payload := file[HEADER_SIZE..HEADER_SIZE + n], file[HEADER_SIZE + n..];
    assert manifest + payload == file[HEADER_SIZE..];
    assert Preamble(n) == file[..12] by { assert file[..12] == file[..4] + file[4..8] + file[8..12]; }
    assert file == file[..12] + file[12..HEADER_SIZE] + file[HEADER_SIZE..];
  }

  /** The verdict does not depend on the version and flag bytes: the checksum does not cover them. */
  lemma VersionAndFlagsAreUncovered(a: seq<byte>, b: seq<byte>, h: seq<byte> -> seq<byte>, dec: seq<byte> -> Option<Value>)
    requires |a| == |b| && forall i :: 0 <= i < |a| && !(4 <= i < 8) ==> a[i] == b[i]
    ensures VerifyBytes(a, h, dec) == VerifyBytes(b, h, dec)
  {
    assert a[..Least(4, |a|)] == b[..Least(4, |b|)];
    if |a| >= HEADER_SIZE {
      hide FromLe32, Magic, Summary;
      assert a[8..12] == b[8..12] && a[CHECKSUM_AT..HEADER_SIZE] == b[CHECKSUM_AT..HEADER_SIZE];
      assert a[HEADER_SIZE..] == b[HEADER_SIZE..];
      assert ManifestBytes(a) == ManifestBytes(b);
    }
  }

  /** Two different inputs with the same digest. */
  predicate Collide(h: seq<byte> -> seq<byte>, x: seq<byte>, y: seq<byte>) { x != y && h(x) == h(y) }

  /** Two accepted files with the same checksum have the same body, or their two bodies collide. */
  lemma BodyIsBound(a: seq<byte>, b: seq<byte>, h: seq<byte> -> seq<byte>, dec: seq<byte> -> Option<Value>)
    requires VerifyBytes(a, h, dec).Accepted? && VerifyBytes(b, h, dec).Accepted?
    requires a[CHECKSUM_AT..HEADER_SIZE] == b[CHECKSUM_AT..HEADER_SIZE]
    ensures a[HEADER_SIZE..] == b[HEADER_SIZE..] || Collide(h, a[HEADER_SIZE..], b[HEADER_SIZE..])
  {
    AcceptedIff(a, h, dec);
    AcceptedIff(b, h, dec);
  }

  /** With another length field an accepted file is accepted again exactly when the other cut parses to a countable object. */
  lemma LengthIsUncovered(a: seq<byte>, b: seq<byte>, h: seq<byte> -> seq<byte>, dec: seq<byte> -> Option<Value>)
    requires VerifyBytes(a, h, dec).Accepted?
    requires |a| == |b| && forall i :: 0 <= i < |a| && !(8 <= i < 12) ==> a[i] == b[i]
    ensures VerifyBytes(b, h, dec).Accepted? <==>
      exists v :: dec(ManifestBytes(b)) == Some(v) && Summary(v).Accepted?
  {
    AcceptedIff(a, h, dec);
    AcceptedIff(b, h, dec);
    hide VerifyBytes, ManifestBytes, Summary, Magic;
    assert a[..4] == b[..4] && a[CHECKSUM_AT..HEADER_SIZE] == b[CHECKSUM_AT..HEADER_SIZE];
    assert a[HEADER_SIZE..] == b[HEADER_SIZE..];
  }

  // ---- the file, written and patched in place ----

  class BinaryFile {
    var data: seq<byte>
    var pos: nat

    ghost predicate Valid()
      reads this
    {
      pos <= |data|
    }

    method Truncate()
      modifies this
      ensures Valid() && data == [] && pos == 0
    {
      data, pos := [], 0;
    }

    method Seek(p: nat)
      requires p <= |data|
      modifies `pos
      ensures Valid() && pos == p
    {
      pos := p;
    }

    /** Reads up to `n` bytes. */
    method Read(n: nat) returns (s: seq<byte>)
      requires Valid()
      modifies `pos
      ensures Valid() && s == ReadAt(data, old(pos), n) && pos == old(pos) + |s|
    {
      s := ReadAt(data, pos, n);
      pos := pos + |s|;
    }

    method ReadAll() returns (s: seq<byte>)
      requires Valid()
      modifies `pos
      ensures Valid() && s == data[old(pos)..] && pos == |data|
    {
      s := data[pos..];
      pos := |data|;
    }

    /** Overwrites from the current position, growing the file as needed. */
    method Write(s: seq<byte>)
      requires Valid()
      modifies this
      ensures Valid() && pos == old(pos) + |s|
      ensures data == old(data)[..old(pos)] + s + old(data)[Least(old(pos) + |s|, |old(data)|)..]
    {
      data := data[..pos] + s + data[Least(pos + |s|, |data|)..];
      pos := pos + |s|;
    }
  }

  /** The archives of the sources that exist, one after the other. */
  function PayloadOf(archives: seq<Option<seq<byte>>>): seq<byte> {
    if archives == [] then []
    else
      var last := archives[|archives| - 1];
      PayloadOf(archives[..|archives| - 1]) + if last.Some? then last.value else []
  }

  /** The archives follow one another in order, and a missing one leaves no trace. */
  lemma {:induction false} PayloadJoins(a: seq<Option<seq<byte>>>, archive: Option<seq<byte>>, b: seq<Option<seq<byte>>>)
    ensures PayloadOf(a + [archive] + b) ==
      PayloadOf(a) + (if archive.Some? then archive.value else []) + PayloadOf(b)
  {
    var all := a + [archive] + b;
    if b == [] {
      assert all[..|all| - 1] == a;
    } else {
      assert all[..|all| - 1] == a + [archive] + b[..|b| - 1];
      PayloadJoins(a, archive, b[..|b| - 1]);
    }
  }

  /** Hashes what follows the header and overwrites the checksum field with the digest. */
  method Seal(file: BinaryFile, ghost preamble: seq<byte>, ghost field: seq<byte>, ghost body: seq<byte>,
              h: seq<byte> -> seq<byte>)
    requires IsDigest(h) && |preamble| == CHECKSUM_AT && |field| == 32 && file.data == preamble + field + body
    modifies file
    ensures file.Valid() && file.data == preamble + h(body) + body
  {
    file.Seek(0);
    var _ := file.Read(HEADER_SIZE);
    var rest := file.ReadAll();
    assert rest == body;
    file.Seek(CHECKSUM_AT);
    file.Write(h(rest));
  }

  /**
    Writes header, zero checksum, manifest and archives, then seals the file. A manifest whose length does not fit
    32 bits fails before the file is opened.
   */
  method BuildLva(file: BinaryFile, manifest: seq<byte>, archives: seq<Option<seq<byte>>>, h: seq<byte> -> seq<byte>)
    returns (ok: bool)
    requires IsDigest(h)
    modifies file
    ensures ok <==> |manifest| < TWO_TO_THE_32
    ensures ok ==> file.Valid() && file.data == PackageOf(manifest, PayloadOf(archives), h)
    ensures !ok ==> file.data == old(file.data) && file.pos == old(file.pos)
  {
    if |manifest| >= TWO_TO_THE_32 { return false; }
    hide Preamble;
    var preamble, zeros := Preamble(|manifest|), seq(32, _ => 0 as byte);
    file.Truncate();
    file.Write(preamble);
    file.Write(zeros);
    file.Write(manifest);
    ghost var start := file.data;
    assert start == preamble + zeros + manifest;
    for i := 0 to |archives|
      invariant file.Valid() && file.pos == |file.data|
      invariant file.data == start + PayloadOf(archives[..i])
    {
      assert archives[..i + 1][..i] == archives[..i];
      if archives[i].Some? { file.Write(archives[i].value); }
    }
    assert archives[..|archives|] == archives;
    ghost var body := manifest + PayloadOf(archives);
    assert file.data == preamble + zeros + body;
    Seal(file, preamble, zeros, body, h);
    assert preamble + h(body) + body == preamble + h(body) + manifest + PayloadOf(archives);
    return true;
  }

  /** Reads the package once, front to back, without changing it. */
  method Verify(file: BinaryFile, h: seq<byte> -> seq<byte>, dec: seq<byte> -> Option<Value>) returns (v: Verdict)
    requires dec([]) == None
    modifies file`pos
    ensures v == VerifyBytes(file.data, h, dec)
  {
    file.Seek(0);
    var header := file.Read(HEADER_SIZE);
    if header[..Least(4, |header|)] != Magic() {
      assert header[..Least(4, |header|)] == file.data[..Least(4, |file.data|)];
      return BadMagic;
    }
    assert header[..4] == file.data[..4];
    if |header| < 12 { return Failed; }
    var manifestLength := FromLe32(header[8..12]);
    assert header[8..12] == file.data[8..12];
    var manifest := file.Read(manifestLength);
    var parsed := dec(manifest);
    if parsed.None? { return Failed; }
    assert |header| == HEADER_SIZE;
    var expected := header[CHECKSUM_AT..];
    var content := file.ReadAll();
    assert expected == file.data[CHECKSUM_AT..HEADER_SIZE];
    assert manifest + content == file.data[HEADER_SIZE..];
    if expected != h(manifest + content) { return ChecksumMismatch; }
    return Summary(parsed.value);
  }
}
