/** Processing contexts of the image processor: the processing type and its
    identifier prefix, processing identifiers and their parsing, the
    database partition key, the S3 key prefix and derived (chained)
    contexts.

    The clock and the random UUID are parameters: `now` is the calendar
    date `LocalDateTime.now()` falls on and `uuid` the text of the random
    UUID. Java's `String.format("%s", null)` prints "null", which
    `FormatArg` reproduces for absent values.
 */
module ProcessingContexts {
  import opened Wrappers
  import JavaText

  datatype ProcessingType = Production | Experimental | Test | Validation | Reprocessing {

    /** The identifier prefix of the type. */
    function Prefix(): string {
      match this
      case Production => "prod"
      case Experimental => "exp"
      case Test => "test"
      case Validation => "val"
      case Reprocessing => "repr"
    }

    /** `toString()` of the enum constant. */
    function Name(): string {
      match this
      case Production => "PRODUCTION"
      case Experimental => "EXPERIMENTAL"
      case Test => "TEST"
      case Validation => "VALIDATION"
      case Reprocessing => "REPROCESSING"
    }
  }

  /** `ProcessingType.values()`, in declaration order. */
  const AllTypes: seq<ProcessingType> := [Production, Experimental, Test, Validation, Reprocessing]

  lemma AllTypesComplete(t: ProcessingType)
    ensures t in AllTypes
  {
  }

  /** Prefixes are non-empty, free of '-', and tell the types apart. */
  lemma PrefixesDistinct(a: ProcessingType, b: ProcessingType)
    ensures |a.Prefix()| > 0 && '-' !in a.Prefix()
    ensures a.Prefix() == b.Prefix() ==> a == b
  {
  }

  /** Enum names tell the types apart and contain no '_'. */
  lemma NamesDistinct(a: ProcessingType, b: ProcessingType)
    ensures '_' !in a.Name()
    ensures a.Name() == b.Name() ==> a == b
  {
  }

  /** `String.format("%s", x)` for a possibly-null string. */
  function FormatArg(x: Option<string>): string {
    match x
    case Some(s) => s
    case None => "null"
  }

  // ---------------------------------------------------------------------
  // Dates

  /** A calendar date as the clock reports it; years 0 to 9999 print with
      exactly four digits. */
  datatype Date = Date(year: int, month: int, day: int) {
    predicate Valid() {
      0 <= year <= 9999 && 1 <= month <= 12 && 1 <= day <= 31
    }
  }

  function DigitChar(d: int): char
    requires 0 <= d <= 9
  {
    ('0' as int + d) as char
  }

  /** `n` written with exactly `width` decimal digits, zero-padded. */
  function Digits(n: nat, width: nat): (s: string)
    ensures |s| == width
    ensures forall k :: 0 <= k < |s| ==> '0' <= s[k] <= '9'
  {
    if width == 0 then "" else Digits(n / 10, width - 1) + [DigitChar(n % 10)]
  }

  /** The first ten characters of `LocalDateTime.toString()`: yyyy-MM-dd. */
  function IsoDate(d: Date): (s: string)
    requires d.Valid()
    ensures |s| == 10 && s[4] == '-' && s[7] == '-'
  {
    Digits(d.year, 4) + "-" + Digits(d.month, 2) + "-" + Digits(d.day, 2)
  }

  /** `String.replace(c, "")`: every `c` removed. */
  function RemoveChar(s: string, c: char): (r: string)
    ensures c !in r
    ensures |r| <= |s|
    ensures c !in s ==> r == s
    decreases |s|
  {
    if |s| == 0 then ""
    else (if s[0] == c then "" else [s[0]]) + RemoveChar(s[1..], c)
  }

  lemma RemoveCharAppend(a: string, b: string, c: char)
    ensures RemoveChar(a + b, c) == RemoveChar(a, c) + RemoveChar(b, c)
    decreases |a|
  {
    if |a| > 0 {
      var head := if a[0] == c then "" else [a[0]];
      assert (a + b)[0] == a[0];
      assert (a + b)[1..] == a[1..] + b;
      assert RemoveChar(a + b, c) == head + RemoveChar(a[1..] + b, c);
      RemoveCharAppend(a[1..], b, c);
    } else {
      assert a + b == b;
    }
  }

  // ---------------------------------------------------------------------
  // Processing identifiers

  /** `generateProcessingId(type, version, name)`: experimental identifiers
      with a workflow name are `exp-{name}-{version}-{date}-{uuid}`, every
      other one `{prefix}-{version}-{date}-{uuid}`, the date being yyyyMMdd. */
  function GenerateProcessingId(t: ProcessingType, version: Option<string>, name: Option<string>,
                                now: Date, uuid: string): (id: string)
    requires now.Valid()
    ensures JavaText.StartsWith(id, t.Prefix() + "-")
  {
    var stamp := RemoveChar(IsoDate(now), '-');
    if t == Experimental && name.Some? then
      t.Prefix() + "-" + name.value + "-" + FormatArg(version) + "-" + stamp + "-" + uuid
    else
      t.Prefix() + "-" + FormatArg(version) + "-" + stamp + "-" + uuid
  }

  /** The legacy one-argument form: version "v1.0" and no workflow name. */
  function GenerateLegacyId(t: ProcessingType, now: Date, uuid: string): string
    requires now.Valid()
  {
    GenerateProcessingId(t, Some("v1.0"), None, now, uuid)
  }

  /** `parseProcessingType`: the type whose prefix is the text before the
      first '-'. Null and '-'-free identifiers are rejected, and so is an
      unknown prefix; an identifier made only of '-' splits into nothing and
      the array access throws. */
  function ParseProcessingType(id: Option<string>): (r: Result<ProcessingType>)
    ensures id.None? || '-' !in id.value ==> r.Failure?
    ensures id.Some? ==> forall t: ProcessingType ::
      r == Success(t) <==> JavaText.StartsWith(id.value, t.Prefix() + "-")
  {
    if id.None? then Failure("Invalid processing ID format")
    else if '-' !in id.value then
      DashFreeHasNoPrefix(id.value);
      Failure("Invalid processing ID format")
    else
      var parts := JavaText.Split(id.value, '-');
      FirstPiece(id.value);
      if |parts| == 0 then Failure("ArrayIndexOutOfBoundsException")
      else TypeForPrefix(parts[0])
  }

  /** The first piece of an identifier containing '-' decides its type: an
      identifier whose split is empty starts with no type's prefix, and
      otherwise it starts with the prefix of exactly the types named by its
      first piece. */
  lemma FirstPiece(s: string)
    requires '-' in s
    ensures var parts := JavaText.Split(s, '-');
      (|parts| == 0 ==> forall t: ProcessingType :: !JavaText.StartsWith(s, t.Prefix() + "-")) &&
      (|parts| > 0 ==> forall t: ProcessingType :: JavaText.StartsWith(s, t.Prefix() + "-") <==> t.Prefix() == parts[0])
  {
    var parts := JavaText.Split(s, '-');
    FirstPieceIsPrefix(s);
    var first := JavaText.SplitAll(s, '-')[0];
    assert '-' !in first;
    PrefixCharacterisation(s, first);
    if |parts| == 0 {
      assert first == "";
      forall t: ProcessingType ensures !JavaText.StartsWith(s, t.Prefix() + "-") {
        PrefixesNonEmpty(t);
      }
    }
  }

  lemma PrefixesNonEmpty(t: ProcessingType)
    ensures t.Prefix() != ""
  {
  }

  lemma DashFreeHasNoPrefix(s: string)
    requires '-' !in s
    ensures forall t: ProcessingType :: !JavaText.StartsWith(s, t.Prefix() + "-")
  {
    forall t: ProcessingType
      ensures !JavaText.StartsWith(s, t.Prefix() + "-")
    {
      DashAfterPrefix(s, t.Prefix());
    }
  }

  lemma DashAfterPrefix(s: string, p: string)
    ensures p + "-" <= s ==> '-' in s
  {
    if p + "-" <= s {
      assert s[|p|] == '-';
    }
  }

  /** The first type of `AllTypes` whose prefix is `prefix`. */
  function TypeForPrefix(prefix: string): (r: Result<ProcessingType>)
    ensures forall t: ProcessingType :: r == Success(t) <==> t.Prefix() == prefix
  {
    if prefix == "prod" then Success(Production)
    else if prefix == "exp" then Success(Experimental)
    else if prefix == "test" then Success(Test)
    else if prefix == "val" then Success(Validation)
    else if prefix == "repr" then Success(Reprocessing)
    else Failure("Unknown processing type prefix: " + prefix)
  }

  /** When `s` contains '-', the first piece of the full split is the text
      before the first '-', and `split` keeps it unless it is empty. */
  lemma FirstPieceIsPrefix(s: string)
    requires '-' in s
    ensures JavaText.SplitAll(s, '-')[0] + "-" <= s
    ensures |JavaText.Split(s, '-')| > 0 ==> JavaText.Split(s, '-')[0] == JavaText.SplitAll(s, '-')[0]
    ensures JavaText.SplitAll(s, '-')[0] != "" ==> |JavaText.Split(s, '-')| > 0
  {
    var all := JavaText.SplitAll(s, '-');
    var i := JavaText.IndexOf(s, '-');
    assert all[0] == s[..i];
    assert s[..i] + "-" == s[..i + 1];
  }

  /** With '-' in `s`, `p + "-"` starts `s` for a '-'-free `p` exactly when
      `p` is the text before the first '-'. */
  lemma PrefixCharacterisation(s: string, first: string)
    requires first + "-" <= s && '-' !in first
    ensures forall t: ProcessingType :: JavaText.StartsWith(s, t.Prefix() + "-") <==> t.Prefix() == first
  {
    forall t: ProcessingType | JavaText.StartsWith(s, t.Prefix() + "-")
      ensures t.Prefix() == first
    {
      PrefixesDistinct(t, t);
      FirstDashAt(s, t.Prefix());
      FirstDashAt(s, first);
    }
  }

  /** A '-'-free `p` followed by '-' at the start of `s` ends where the first
      '-' of `s` is. */
  lemma FirstDashAt(s: string, p: string)
    requires p + "-" <= s && '-' !in p
    ensures JavaText.IndexOf(s, '-') == |p| && s[..|p|] == p
  {
    assert s[..|p|] == p;
    JavaText.IndexOfFirst(s, '-', |p|);
  }

  /** `id` starts with the prefix of `t` and a '-', which by the contract of
      `ParseProcessingType` is exactly when it parses to `t`. */
  predicate HasTypePrefix(id: Option<string>, t: ProcessingType) {
    id.Some? && JavaText.StartsWith(id.value, t.Prefix() + "-")
  }

  /** Parsing a generated identifier gives back its type. */
  lemma ParseGenerated(t: ProcessingType, version: Option<string>, name: Option<string>,
                       now: Date, uuid: string)
    requires now.Valid()
    ensures ParseProcessingType(Some(GenerateProcessingId(t, version, name, now, uuid))) == Success(t)
  {
  }

  // ---------------------------------------------------------------------
  // Contexts

  datatype ExperimentContext = ExperimentContext(experimentName: Option<string>,
                                                 researcherId: Option<string>,
                                                 researcherEmail: Option<string>)

  datatype ProductionContext = ProductionContext(observationId: Option<string>,
                                                 instrumentId: Option<string>,
                                                 priority: Option<int>)

  datatype DataLineage = DataLineage(previousProcessingId: Option<string>,
                                     rootProcessingId: Option<string>,
                                     processingDepth: Option<int>)

  datatype ProcessingContext = ProcessingContext(
    processingId: Option<string>,
    processingType: Option<ProcessingType>,
    experimentContext: Option<ExperimentContext>,
    productionContext: Option<ProductionContext>,
    sessionId: Option<string>,
    pipelineVersion: Option<string>,
    createdAt: Option<Date>,
    dataLineage: Option<DataLineage>)
  {
    predicate IsExperimental() { processingType == Some(Experimental) }
    predicate IsProduction() { processingType == Some(Production) }
  }

  /** `getPartitionKey`: `{prefix}_{yyyyMM}` of the creation date; a null
      type or creation time throws. */
  function PartitionKey(ctx: ProcessingContext): (r: Result<string>)
    requires ctx.createdAt.Some? ==> ctx.createdAt.value.Valid()
    ensures r.Success? <==> ctx.processingType.Some? && ctx.createdAt.Some?
    ensures r.Success? ==>
      r.value == ctx.processingType.value.Prefix() + "_" +
                 Digits(ctx.createdAt.value.year, 4) + Digits(ctx.createdAt.value.month, 2)
  {
    if ctx.createdAt.None? || ctx.processingType.None? then Failure("NullPointerException")
    else
      var d := ctx.createdAt.value;
      YearMonthStamp(d);
      Success(ctx.processingType.value.Prefix() + "_" + RemoveChar(IsoDate(d)[..7], '-'))
  }

  /** `substring(0, 7).replace("-", "")` of the ISO date is yyyyMM. */
  lemma YearMonthStamp(d: Date)
    requires d.Valid()
    ensures RemoveChar(IsoDate(d)[..7], '-') == Digits(d.year, 4) + Digits(d.month, 2)
  {
    var y := Digits(d.year, 4);
    var m := Digits(d.month, 2);
    assert IsoDate(d)[..7] == y + ("-" + m);
    RemoveCharAppend(y, "-" + m, '-');
    RemoveCharAppend("-", m, '-');
    DigitsHaveNoDash(d.year, 4);
    DigitsHaveNoDash(d.month, 2);
  }

  lemma DigitsHaveNoDash(n: nat, width: nat)
    ensures '-' !in Digits(n, width)
  {
  }

  /** `getS3KeyPrefix`: production and experimental data get their own
      trees, the latter per experiment ("unnamed" when no name is known);
      every other type is filed under its prefix. */
  function S3KeyPrefix(ctx: ProcessingContext): (r: Result<string>)
    requires ctx.createdAt.Some? ==> ctx.createdAt.value.Valid()
    ensures r.Success? <==> ctx.createdAt.Some? && ctx.processingType.Some?
    ensures r.Success? && ctx.IsProduction() ==> JavaText.StartsWith(r.value, "production/")
    ensures r.Success? && ctx.IsExperimental() ==>
      JavaText.StartsWith(r.value, "experimental/" + ExperimentName(ctx) + "/")
    ensures r.Success? && !ctx.IsProduction() && !ctx.IsExperimental() ==>
      JavaText.StartsWith(r.value, ctx.processingType.value.Prefix() + "/")
    ensures r.Success? ==>
      JavaText.EndsWith(r.value, "/" + IsoDate(ctx.createdAt.value) + "/" + FormatArg(ctx.processingId))
  {
    if ctx.createdAt.None? then Failure("NullPointerException")
    else
      var date := IsoDate(ctx.createdAt.value);
      var tail := "/" + date + "/" + FormatArg(ctx.processingId);
      if ctx.IsProduction() then Success("production" + tail)
      else if ctx.IsExperimental() then Success("experimental/" + ExperimentName(ctx) + tail)
      else if ctx.processingType.None? then Failure("NullPointerException")
      else Success(ctx.processingType.value.Prefix() + tail)
  }

  /** The experiment name, or "unnamed". */
  function ExperimentName(ctx: ProcessingContext): string {
    if ctx.experimentContext.Some? && ctx.experimentContext.value.experimentName.Some?
    then ctx.experimentContext.value.experimentName.value
    else "unnamed"
  }

  /** `createProductionContext`: a production context with priority 1. */
  function CreateProductionContext(sessionId: Option<string>, observationId: Option<string>,
                                   instrumentId: Option<string>, now: Date, uuid: string): (ctx: ProcessingContext)
    requires now.Valid()
    ensures ctx.IsProduction() && ctx.createdAt == Some(now) && ctx.sessionId == sessionId
    ensures ctx.productionContext == Some(ProductionContext(observationId, instrumentId, Some(1)))
    ensures ctx.processingId.Some? && ParseProcessingType(ctx.processingId) == Success(Production)
  {
    var id := GenerateLegacyId(Production, now, uuid);
    ParseGenerated(Production, Some("v1.0"), None, now, uuid);
    ProcessingContext(Some(id), Some(Production), None,
                      Some(ProductionContext(observationId, instrumentId, Some(1))),
                      sessionId, None, Some(now), None)
  }

  /** `createExperimentalContext`: an experimental context for a researcher. */
  function CreateExperimentalContext(sessionId: Option<string>, experimentName: Option<string>,
                                     researcherId: Option<string>, researcherEmail: Option<string>,
                                     now: Date, uuid: string): (ctx: ProcessingContext)
    requires now.Valid()
    ensures ctx.IsExperimental() && ctx.createdAt == Some(now) && ctx.sessionId == sessionId
    ensures ctx.experimentContext == Some(ExperimentContext(experimentName, researcherId, researcherEmail))
    ensures ctx.processingId.Some? && ParseProcessingType(ctx.processingId) == Success(Experimental)
  {
    var id := GenerateLegacyId(Experimental, now, uuid);
    ParseGenerated(Experimental, Some("v1.0"), None, now, uuid);
    ProcessingContext(Some(id), Some(Experimental),
                      Some(ExperimentContext(experimentName, researcherId, researcherEmail)),
                      None, sessionId, None, Some(now), None)
  }

  /** `createDerivedContext`: the next context of a processing chain. It
      keeps the type, the experiment and production data and the pipeline
      version, points back at its parent, keeps the chain's root and is one
      step deeper. A null type, or a lineage without a depth, throws. */
  function CreateDerivedContext(ctx: ProcessingContext, newSessionId: Option<string>,
                                now: Date, uuid: string): (r: Result<ProcessingContext>)
    requires now.Valid()
    ensures r.Success? <==>
      ctx.processingType.Some? && (ctx.dataLineage.Some? ==> ctx.dataLineage.value.processingDepth.Some?)
    ensures r.Success? ==>
      var d := r.value;
      d.processingType == ctx.processingType &&
      d.experimentContext == ctx.experimentContext &&
      d.productionContext == ctx.productionContext &&
      d.pipelineVersion == ctx.pipelineVersion &&
      d.sessionId == newSessionId &&
      d.createdAt == Some(now) &&
      HasTypePrefix(d.processingId, ctx.processingType.value) &&
      d.dataLineage.Some? &&
      d.dataLineage.value.previousProcessingId == ctx.processingId &&
      d.dataLineage.value.rootProcessingId == RootOf(ctx) &&
      d.dataLineage.value.processingDepth == Some(DepthOf(ctx) + 1)
  {
    if ctx.processingType.None? then Failure("NullPointerException")
    else if ctx.dataLineage.Some? && ctx.dataLineage.value.processingDepth.None? then
      Failure("NullPointerException")
    else
      var t := ctx.processingType.value;
      var id := GenerateLegacyId(t, now, uuid);
      var root := if ctx.dataLineage.Some? then ctx.dataLineage.value.rootProcessingId else ctx.processingId;
      var depth := if ctx.dataLineage.Some? then ctx.dataLineage.value.processingDepth.value else 0;
      Success(ProcessingContext(Some(id), ctx.processingType, ctx.experimentContext, ctx.productionContext,
                                newSessionId, ctx.pipelineVersion, Some(now),
                                Some(DataLineage(ctx.processingId, root, Some(depth + 1)))))
  }

  /** The root of the chain `ctx` belongs to: the lineage's root, or the
      context itself when it has no lineage. */
  function RootOf(ctx: ProcessingContext): Option<string> {
    if ctx.dataLineage.Some? then ctx.dataLineage.value.rootProcessingId else ctx.processingId
  }

  /** Steps from the root: the lineage's depth, or 0 without a lineage. */
  function DepthOf(ctx: ProcessingContext): int
    requires ctx.dataLineage.Some? ==> ctx.dataLineage.value.processingDepth.Some?
  {
    if ctx.dataLineage.Some? then ctx.dataLineage.value.processingDepth.value else 0
  }

  /** Two derivations in a row stay in the same chain: the root is the
      original context's, and the depth grows by two. */
  lemma DerivedTwice(ctx: ProcessingContext, s1: Option<string>, s2: Option<string>,
                     now1: Date, now2: Date, u1: string, u2: string)
    requires now1.Valid() && now2.Valid()
    requires ctx.processingType.Some? && ctx.dataLineage.None?
    ensures CreateDerivedContext(ctx, s1, now1, u1).Success?
    ensures var d1 := CreateDerivedContext(ctx, s1, now1, u1).value;
      CreateDerivedContext(d1, s2, now2, u2).Success? &&
      CreateDerivedContext(d1, s2, now2, u2).value.dataLineage.value.rootProcessingId == ctx.processingId &&
      CreateDerivedContext(d1, s2, now2, u2).value.dataLineage.value.processingDepth == Some(2)
  {
  }
}
