/** Translators from the native Direct3D enumerations to the portable ones, and
    the decoder of the packed shader-version word. All total: an unrecognised
    native value falls to a designated default, never to a failure. */
module Utils {
  import opened Base
  import D3D
  import opened ShaderReflections
  import Flags = ShaderResourceFlags

  // ------------------------------------------------------- version word decoding

  /** The kind tag, bits 16-31 of the version word (`(version & 0xFFFF0000) >> 16`),
      cast to the kind enumeration: tags 0-14 name a kind, any larger tag is kept. */
  function KindOf(version: u32): (k: D3D.ShaderVersionType)
    ensures k.UnknownVersionType? <==> version / 0x1_0000 > 14
    ensures D3D.VersionTypeTag(k) == version / 0x1_0000
  {
    D3D.VersionTypeOf(version / 0x1_0000)
  }

  /** The major version, bits 4-7 (`(version & 0xF0) >> 4`): the high nibble of the low byte. */
  function Major(version: u32): (n: nat)
    ensures n < 16
  {
    (version % 0x100) / 0x10
  }

  /** The minor version, bits 0-3 (`version & 0xF`): the low nibble of the low byte. */
  function Minor(version: u32): (n: nat)
    ensures n < 16
  {
    (version % 0x100) % 0x10
  }

  /** The textual prefix of each shader kind. */
  function Prefix(t: D3D.ShaderVersionType): (p: string)
    ensures p == "unknown" <==> t.UnknownVersionType?
    ensures |p| > 0 && p[0] != '_'
  {
    match t
    case PixelShader => "ps"
    case VertexShader => "vs"
    case GeometryShader => "gs"
    case HullShader => "hs"
    case DomainShader => "ds"
    case ComputeShader => "cs"
    case Library => "lib"
    case RayGenerationShader => "ray_generation"
    case IntersectionShader => "intersection"
    case AnyHitShader => "any_hit"
    case ClosestHitShader => "closest_hit"
    case MissShader => "miss"
    case CallableShader => "callable"
    case MeshShader => "ms"
    case AmplificationShader => "as"
    case UnknownVersionType(_) => "unknown"
  }

  /** Decimal text of a number, as string interpolation writes it. */
  function Decimal(n: nat): (s: string)
    ensures |s| > 0
    ensures AllDigits(s)
    ensures n < 10 <==> |s| == 1
  {
    if n < 10 then [Digit(n)] else Decimal(n / 10) + [Digit(n % 10)]
  }

  function Digit(d: nat): (c: char)
    requires d < 10
    ensures '0' <= c <= '9'
    ensures c as int - '0' as int == d
  {
    ('0' as int + d) as char
  }

  predicate AllDigits(s: string)
  {
    forall i :: 0 <= i < |s| ==> '0' <= s[i] <= '9'
  }

  /** Reads back the number a string of decimal digits denotes. */
  function ParseDecimal(s: string): nat
    requires AllDigits(s)
  {
    if s == [] then 0 else ParseDecimal(s[..|s| - 1]) * 10 + (s[|s| - 1] as int - '0' as int)
  }

  lemma {:induction false} DecimalRoundTrip(n: nat)
    ensures ParseDecimal(Decimal(n)) == n
  {
    if n >= 10 {
      var s := Decimal(n);
      assert s[..|s| - 1] == Decimal(n / 10);
      DecimalRoundTrip(n / 10);
    }
  }

  /** `VersionToString`: "<kind prefix>_<major>_<minor>". The string loses
      nothing: the kind prefix, the major and the minor version read back from it. */
  function VersionToString(version: u32): (s: string)
    ensures ParseVersionString(s) == (Prefix(KindOf(version)), Major(version), Minor(version))
  {
    VersionPartsRoundTrip(Prefix(KindOf(version)), Major(version), Minor(version));
    Prefix(KindOf(version)) + "_" + Decimal(Major(version)) + "_" + Decimal(Minor(version))
  }

  /** `VersionToStage`: the kinds with a portable stage keep it, amplification
      shaders become task shaders, everything else is `Other`. */
  function VersionToStage(version: u32): (stage: ShaderStage)
    ensures stage == Other <==>
      !(KindOf(version) in {D3D.PixelShader, D3D.VertexShader, D3D.ComputeShader,
                            D3D.Library, D3D.MeshShader, D3D.AmplificationShader})
  {
    match KindOf(version)
    case PixelShader => Pixel
    case VertexShader => Vertex
    case GeometryShader => Other
    case HullShader => Other
    case DomainShader => Other
    case ComputeShader => Compute
    case Library => ShaderStage.Library
    case RayGenerationShader => Other
    case IntersectionShader => Other
    case AnyHitShader => Other
    case ClosestHitShader => Other
    case MissShader => Other
    case CallableShader => Other
    case MeshShader => Mesh
    case AmplificationShader => Task
    case UnknownVersionType(_) => Other
  }

  /** The stage table in full. */
  lemma VersionToStageTable(version: u32)
    ensures KindOf(version) == D3D.PixelShader ==> VersionToStage(version) == Pixel
    ensures KindOf(version) == D3D.VertexShader ==> VersionToStage(version) == Vertex
    ensures KindOf(version) == D3D.ComputeShader ==> VersionToStage(version) == Compute
    ensures KindOf(version) == D3D.Library ==> VersionToStage(version) == ShaderStage.Library
    ensures KindOf(version) == D3D.MeshShader ==> VersionToStage(version) == Mesh
    ensures KindOf(version) == D3D.AmplificationShader ==> VersionToStage(version) == Task
  {
  }

  /** An unknown kind tag is not a failure: prefix "unknown", stage `Other`. */
  lemma UnknownKindTag(version: u32)
    requires version / 0x1_0000 > 14
    ensures VersionToStage(version) == Other
    ensures VersionToString(version)[..7] == "unknown"
  {
  }

  /** Bits 8-15 of the version word never matter. */
  lemma VersionIgnoresBits8To15(v: u32, w: u32)
    requires v / 0x1_0000 == w / 0x1_0000
    requires v % 0x100 == w % 0x100
    ensures VersionToString(v) == VersionToString(w)
    ensures VersionToStage(v) == VersionToStage(w)
  {
  }

  /** The stage depends on the kind tag only. */
  lemma StageDependsOnKindTagOnly(v: u32, w: u32)
    requires v / 0x1_0000 == w / 0x1_0000
    ensures VersionToStage(v) == VersionToStage(w)
  {
  }

  /** A compute shader of shader model 6.5: the word 0x50065 gives "cs_6_5" and
      the Compute stage. */
  lemma ComputeShaderModel65()
    ensures VersionToString(0x50065) == "cs_6_5"
    ensures VersionToStage(0x50065) == Compute
  {
    assert KindOf(0x50065) == D3D.ComputeShader;
    assert Major(0x50065) == 6 && Minor(0x50065) == 5;
  }

  /** Splits a string at its last '_' (everything goes right when there is none). */
  function SplitAtLastUnderscore(s: string): (string, string)
  {
    if s == [] then ([], [])
    else if s[|s| - 1] == '_' then (s[..|s| - 1], [])
    else var (left, right) := SplitAtLastUnderscore(s[..|s| - 1]); (left, right + [s[|s| - 1]])
  }

  lemma {:induction false} SplitAtLastUnderscoreOf(x: string, y: string)
    requires forall i :: 0 <= i < |y| ==> y[i] != '_'
    ensures SplitAtLastUnderscore(x + "_" + y) == (x, y)
  {
    var s := x + "_" + y;
    if y != [] {
      assert s[..|s| - 1] == x + "_" + y[..|y| - 1];
      SplitAtLastUnderscoreOf(x, y[..|y| - 1]);
      assert y[..|y| - 1] + [y[|y| - 1]] == y;
    } else {
      assert s[..|s| - 1] == x;
    }
  }

  /** Reads a version string back into its prefix, major and minor number. */
  function ParseVersionString(s: string): (string, nat, nat)
  {
    var split := SplitAtLastUnderscore(s);
    var inner := SplitAtLastUnderscore(split.0);
    if AllDigits(inner.1) && AllDigits(split.1)
    then (inner.0, ParseDecimal(inner.1), ParseDecimal(split.1))
    else (inner.0, 0, 0)
  }

  /** A "<prefix>_<major>_<minor>" string reads back into its three parts,
      whatever the prefix holds (some prefixes contain '_'). */
  lemma VersionPartsRoundTrip(p: string, major: nat, minor: nat)
    ensures ParseVersionString(p + "_" + Decimal(major) + "_" + Decimal(minor)) == (p, major, minor)
  {
    var a, b := Decimal(major), Decimal(minor);
    SplitAtLastUnderscoreOf(p + "_" + a, b);
    SplitAtLastUnderscoreOf(p, a);
    DecimalRoundTrip(major);
    DecimalRoundTrip(minor);
  }

  // -------------------------------------------------------------- enum translators

  /** The binding kinds that are unordered-access views in Direct3D. */
  predicate IsUavKind(t: D3D.ShaderInputType) {
    t in {D3D.SitUavRwtyped, D3D.SitUavRwstructured, D3D.SitUavRwbyteaddress,
          D3D.SitUavAppendStructured, D3D.SitUavConsumeStructured,
          D3D.SitUavRwstructuredWithCounter, D3D.SitUavFeedbacktexture}
  }

  /** `ToShaderResourceFlags`: a binding kind to its composed capability bits. */
  function ToShaderResourceFlags(t: D3D.ShaderInputType): (r: bv32)
    ensures r == Flags.None <==> t.UnlistedInputType?
    ensures IsUavKind(t) && t != D3D.SitUavFeedbacktexture ==> Flags.Has(r, Flags.Uav)
    ensures t in {D3D.SitStructured, D3D.SitUavRwstructured, D3D.SitUavAppendStructured,
                  D3D.SitUavConsumeStructured, D3D.SitUavRwstructuredWithCounter}
            <==> Flags.Has(r, Flags.IsStructured)
    ensures t in {D3D.SitByteaddress, D3D.SitUavRwbyteaddress} <==> Flags.Has(r, Flags.IsByteAddress)
    ensures t == D3D.SitUavRwstructuredWithCounter <==> Flags.Has(r, Flags.Counter)
    ensures !(Flags.Has(r, Flags.Srv) && Flags.Has(r, Flags.Uav))
  {
    match t
    case SitCbuffer => Flags.CBuffer
    case SitTbuffer => Flags.TBuffer
    case SitTexture => Flags.Texture
    case SitSampler => Flags.Sampler
    case SitUavRwtyped => Flags.RwBuffer
    case SitStructured => Flags.Structured
    case SitUavRwstructured => Flags.RwStructured
    case SitByteaddress => Flags.ByteAddress
    case SitUavRwbyteaddress => Flags.RwByteAddress
    case SitUavAppendStructured => Flags.AppendStructuredBuffer
    case SitUavConsumeStructured => Flags.ConsumeStructuredBuffer
    case SitUavRwstructuredWithCounter => Flags.RwStructuredWithCounter
    case SitRtaccelerationstructure => Flags.AccelerationStructure
    case SitUavFeedbacktexture => Flags.FeedbackTexture
    case UnlistedInputType(_) => Flags.None
  }

  /** A structured UAV with a counter tests true for the UAV, structured and counter bits at once. */
  lemma StructuredUavWithCounterFlags()
    ensures Flags.Has(ToShaderResourceFlags(D3D.SitUavRwstructuredWithCounter), Flags.Uav | Flags.IsStructured | Flags.Counter)
  {
  }

  /** The feedback texture is a UAV kind whose flags do not carry the UAV bit (nor
      the texture bit): it maps to the single `FeedbackTexture` bit. */
  lemma FeedbackTextureIsNotFlaggedUav()
    ensures IsUavKind(D3D.SitUavFeedbacktexture)
    ensures ToShaderResourceFlags(D3D.SitUavFeedbacktexture) == Flags.FeedbackTexture
    ensures !Flags.Has(ToShaderResourceFlags(D3D.SitUavFeedbacktexture), Flags.Uav)
  {
  }

  /** `ToShaderTexStorage`, whose result the binding builder stores as the SRV storage. */
  function ToShaderTexStorage(t: D3D.ResourceReturnType): (r: ShaderSrvStorage)
    ensures r == ShaderSrvStorage.Unknown <==> (t.ReturnTypeNone? || t.UnlistedReturnType?)
  {
    match t
    case ReturnTypeUnorm => UNorm
    case ReturnTypeSNorm => SNorm
    case ReturnTypeSint => SInt
    case ReturnTypeUint => ShaderSrvStorage.UInt
    case ReturnTypeFloat => ShaderSrvStorage.Float
    case ReturnTypeMixed => Mixed
    case ReturnTypeDouble => ShaderSrvStorage.Double
    case ReturnTypeContinued => Continued
    case _ => ShaderSrvStorage.Unknown
  }

  /** `ToShaderTexDimension`, whose result the binding builder stores as the SRV dimension. */
  function ToShaderTexDimension(d: D3D.SrvDimension): (r: ShaderSrvDimension)
    ensures r == ShaderSrvDimension.Unknown <==> (d.SrvDimensionUnknown? || d.UnlistedSrvDimension?)
  {
    match d
    case SrvDimensionBuffer => ShaderSrvDimension.Buffer
    case SrvDimensionTexture1D => ShaderSrvDimension.Texture1D
    case SrvDimensionTexture1Darray => ShaderSrvDimension.Texture1DArray
    case SrvDimensionTexture2D => ShaderSrvDimension.Texture2D
    case SrvDimensionTexture2Darray => ShaderSrvDimension.Texture2DArray
    case SrvDimensionTexture2Dms => ShaderSrvDimension.Texture2DMs
    case SrvDimensionTexture2Dmsarray => ShaderSrvDimension.Texture2DArrayMs
    case SrvDimensionTexture3D => ShaderSrvDimension.Texture3D
    case SrvDimensionTexturecube => ShaderSrvDimension.TextureCube
    case SrvDimensionTexturecubearray => ShaderSrvDimension.TextureCubeArray
    case SrvDimensionBufferex => BufferEx
    case _ => ShaderSrvDimension.Unknown
  }

  function ToShaderVectorComponentType(t: D3D.RegisterComponentType): (r: ShaderVectorComponentType)
    ensures r == ShaderVectorComponentType.Unknown <==> (t.RegisterComponentUnknown? || t.UnlistedComponentType?)
  {
    match t
    case RegisterComponentUint32 => UInt32
    case RegisterComponentSint32 => SInt32
    case RegisterComponentFloat32 => Float32
    case _ => ShaderVectorComponentType.Unknown
  }

  /** The `D3D_NAME` members the semantic translator names. */
  predicate IsListedName(n: D3D.Name) {
    !(n.NameUndefined? || n.UnlistedName?)
  }

  function ToShaderSemantic(n: D3D.Name): (r: ShaderSemantic)
    ensures r == Undefined <==> !IsListedName(n)
  {
    match n
    case NamePosition => Position
    case NameClipDistance => ClipDistance
    case NameCullDistance => CullDistance
    case NameRenderTargetArrayIndex => RenderTargetArrayIndex
    case NameViewportArrayIndex => ViewportArrayIndex
    case NameVertexID => VertexId
    case NamePrimitiveID => PrimitiveId
    case NameInstanceID => InstanceId
    case NameIsFrontFace => IsFrontFace
    case NameSampleIndex => SampleIndex
    case NameFinalQuadEdgeTessfactor => FinalQuadEdgeTessFactor
    case NameFinalQuadInsideTessfactor => FinalQuadInsideTessFactor
    case NameFinalTriEdgeTessfactor => FinalTriEdgeTessFactor
    case NameFinalTriInsideTessfactor => FinalTriInsideTessFactor
    case NameFinalLineDetailTessfactor => FinalLineDetailTessFactor
    case NameFinalLineDensityTessfactor => FinalLineDensityTessFactor
    case NameBarycentrics => Barycentrics
    case NameShadingrate => ShadingRate
    case NameCullprimitive => CullPrimitive
    case NameTarget => Target
    case NameDepth => Depth
    case NameCoverage => Coverage
    case NameDepthGreaterEqual => DepthGreaterEqual
    case NameDepthLessEqual => DepthLessEqual
    case NameStencilRef => StencilRef
    case NameInnerCoverage => InnerCoverage
    case _ => Undefined
  }

  /** The native name each portable semantic comes from (the inverse table). */
  function NativeNameOf(s: ShaderSemantic): (n: D3D.Name)
  {
    match s
    case Undefined => D3D.NameUndefined
    case Position => D3D.NamePosition
    case ClipDistance => D3D.NameClipDistance
    case CullDistance => D3D.NameCullDistance
    case RenderTargetArrayIndex => D3D.NameRenderTargetArrayIndex
    case ViewportArrayIndex => D3D.NameViewportArrayIndex
    case VertexId => D3D.NameVertexID
    case PrimitiveId => D3D.NamePrimitiveID
    case InstanceId => D3D.NameInstanceID
    case IsFrontFace => D3D.NameIsFrontFace
    case SampleIndex => D3D.NameSampleIndex
    case FinalQuadEdgeTessFactor => D3D.NameFinalQuadEdgeTessfactor
    case FinalQuadInsideTessFactor => D3D.NameFinalQuadInsideTessfactor
    case FinalTriEdgeTessFactor => D3D.NameFinalTriEdgeTessfactor
    case FinalTriInsideTessFactor => D3D.NameFinalTriInsideTessfactor
    case FinalLineDetailTessFactor => D3D.NameFinalLineDetailTessfactor
    case FinalLineDensityTessFactor => D3D.NameFinalLineDensityTessfactor
    case Barycentrics => D3D.NameBarycentrics
    case ShadingRate => D3D.NameShadingrate
    case CullPrimitive => D3D.NameCullprimitive
    case Target => D3D.NameTarget
    case Depth => D3D.NameDepth
    case Coverage => D3D.NameCoverage
    case DepthGreaterEqual => D3D.NameDepthGreaterEqual
    case DepthLessEqual => D3D.NameDepthLessEqual
    case StencilRef => D3D.NameStencilRef
    case InnerCoverage => D3D.NameInnerCoverage
  }

  /** Every listed native semantic comes back from its portable image. */
  lemma SemanticTranslationRoundTrip(n: D3D.Name)
    ensures IsListedName(n) ==> NativeNameOf(ToShaderSemantic(n)) == n
  {
  }

  /** Every portable semantic but `Undefined` is the image of a listed native one;
      with the round trip, the translator is a bijection between the listed
      names and the defined semantics. */
  lemma SemanticTranslationIsOnto(s: ShaderSemantic)
    ensures s != Undefined ==> IsListedName(NativeNameOf(s)) && ToShaderSemantic(NativeNameOf(s)) == s
  {
  }

  lemma ToShaderSemanticInjective(a: D3D.Name, b: D3D.Name)
    requires IsListedName(a) && IsListedName(b)
    requires ToShaderSemantic(a) == ToShaderSemantic(b)
    ensures a == b
  {
    SemanticTranslationRoundTrip(a);
    SemanticTranslationRoundTrip(b);
  }

  function ToShaderMinPrecision(p: D3D.MinPrecision): (r: ShaderMinPrecision)
    ensures r == Default <==> (p.MinPrecisionDefault? || p.UnlistedMinPrecision?)
  {
    match p
    case MinPrecisionFloat16 => ShaderMinPrecision.Float16
    case MinPrecisionFloat28 => Float10
    case MinPrecisionSint16 => SInt16
    case MinPrecisionUint16 => ShaderMinPrecision.UInt16
    case MinPrecisionAny16 => Any16
    case MinPrecisionAny10 => Any10
    case _ => Default
  }

  function ToShaderTypeKind(c: D3D.ShaderVariableClass): (r: ShaderTypeKind)
    ensures r == Scalar <==> (c.SvcScalar? || c.UnlistedClass?)
  {
    match c
    case SvcVector => Vector
    case SvcMatrixRows => MatrixRowMajor
    case SvcMatrixColumns => MatrixColumnMajor
    case SvcObject => Object
    case SvcStruct => Struct
    case SvcInterfaceClass => Class
    case SvcInterfacePointer => Pointer
    case SvcForceDword => ShaderTypeKind.DWord
    case _ => Scalar
  }

  /** The `D3D_SHADER_VARIABLE_TYPE` members the variable-type translator names. */
  predicate IsListedVarType(t: D3D.ShaderVariableType) {
    !(t.SvtPixelshader? || t.SvtVertexshader? || t.SvtPixelfragment? || t.SvtVertexfragment? ||
      t.SvtGeometryshader? || t.SvtHullshader? || t.SvtDomainshader? || t.SvtComputeshader? ||
      t.SvtInterfacePointer? || t.UnlistedVarType?)
  }

  /** `ToShaderVarType`: a code outside the native enumeration falls to `Unknown`
      (the lemmas below give the whole table). */
  function ToShaderVarType(t: D3D.ShaderVariableType): (r: ShaderVarType)
    ensures t.UnlistedVarType? ==> r == ShaderVarType.Unknown
  {
    match t
    case SvtVoid => Void
    case SvtBool => Bool
    case SvtInt => Int
    case SvtFloat => ShaderVarType.Float
    case SvtString => String
    case SvtTexture => ShaderVarType.Texture
    case SvtTexture1D => ShaderVarType.Texture1D
    case SvtTexture2D => ShaderVarType.Texture2D
    case SvtTexture3D => ShaderVarType.Texture3D
    case SvtTexturecube => ShaderVarType.TextureCube
    case SvtSampler => ShaderVarType.Sampler
    case SvtSampler1D => Sampler1D
    case SvtSampler2D => Sampler2D
    case SvtSampler3D => Sampler3D
    case SvtSamplercube => SamplerCube
    case SvtUint => ShaderVarType.UInt
    case SvtUint8 => UInt8
    case SvtRasterizer => Rasterizer
    case SvtDepthstencil => DepthStencil
    case SvtBlend => Blend
    case SvtBuffer => ShaderVarType.Buffer
    case SvtCbuffer => ShaderVarType.CBuffer
    case SvtTbuffer => ShaderVarType.TBuffer
    case SvtTexture1Darray => ShaderVarType.Texture1DArray
    case SvtTexture2Darray => ShaderVarType.Texture2DArray
    case SvtRendertargetview => RenderTargetView
    case SvtDepthstencilview => DepthStencilView
    case SvtTexture2Dms => ShaderVarType.Texture2DMs
    case SvtTexture2Dmsarray => ShaderVarType.Texture2DArrayMs
    case SvtTexturecubearray => ShaderVarType.TextureCubeArray
    case SvtDouble => ShaderVarType.Double
    case SvtRwtexture1D => RwTexture1D
    case SvtRwtexture1Darray => RwTexture1DArray
    case SvtRwtexture2D => RwTexture2D
    case SvtRwtexture2Darray => RwTexture2DArray
    case SvtRwtexture3D => RwTexture3D
    case SvtRwbuffer => ShaderVarType.RwBuffer
    case SvtByteaddressBuffer => ByteAddressBuffer
    case SvtRwbyteaddressBuffer => RwByteAddressBuffer
    case SvtStructuredBuffer => StructuredBuffer
    case SvtRwstructuredBuffer => RwStructuredBuffer
    case SvtAppendStructuredBuffer => ShaderVarType.AppendStructuredBuffer
    case SvtConsumeStructuredBuffer => ShaderVarType.ConsumeStructuredBuffer
    case SvtMin8float => Min8Float
    case SvtMin10float => Min10Float
    case SvtMin16float => Min16Float
    case SvtMin12int => Min12Int
    case SvtMin16int => Min16Int
    case SvtMin16Uint => Min16UInt
    case SvtInt16 => Int16
    case SvtUint16 => ShaderVarType.UInt16
    case SvtFloat16 => ShaderVarType.Float16
    case SvtInt64 => Int64
    case SvtUint64 => UInt64
    case SvtForceDword => ShaderVarType.DWord
    case _ => ShaderVarType.Unknown
  }

  /** The native variable type each portable one comes from (the inverse table). */
  function NativeVarTypeOf(r: ShaderVarType): D3D.ShaderVariableType
  {
    match r
    case Unknown => D3D.UnlistedVarType(-1)
    case Void => D3D.SvtVoid
    case Bool => D3D.SvtBool
    case UInt8 => D3D.SvtUint8
    case Int => D3D.SvtInt
    case UInt => D3D.SvtUint
    case Float => D3D.SvtFloat
    case Double => D3D.SvtDouble
    case Min8Float => D3D.SvtMin8float
    case Min10Float => D3D.SvtMin10float
    case Min16Float => D3D.SvtMin16float
    case Min12Int => D3D.SvtMin12int
    case Min16Int => D3D.SvtMin16int
    case Min16UInt => D3D.SvtMin16Uint
    case Int16 => D3D.SvtInt16
    case UInt16 => D3D.SvtUint16
    case Float16 => D3D.SvtFloat16
    case Int64 => D3D.SvtInt64
    case UInt64 => D3D.SvtUint64
    case DWord => D3D.SvtForceDword
    case String => D3D.SvtString
    case Texture => D3D.SvtTexture
    case Texture1D => D3D.SvtTexture1D
    case Texture2D => D3D.SvtTexture2D
    case Texture3D => D3D.SvtTexture3D
    case TextureCube => D3D.SvtTexturecube
    case Texture1DArray => D3D.SvtTexture1Darray
    case Texture2DArray => D3D.SvtTexture2Darray
    case TextureCubeArray => D3D.SvtTexturecubearray
    case Texture2DMs => D3D.SvtTexture2Dms
    case Texture2DArrayMs => D3D.SvtTexture2Dmsarray
    case Sampler => D3D.SvtSampler
    case Sampler1D => D3D.SvtSampler1D
    case Sampler2D => D3D.SvtSampler2D
    case Sampler3D => D3D.SvtSampler3D
    case SamplerCube => D3D.SvtSamplercube
    case RwTexture1D => D3D.SvtRwtexture1D
    case RwTexture2D => D3D.SvtRwtexture2D
    case RwTexture3D => D3D.SvtRwtexture3D
    case RwTexture1DArray => D3D.SvtRwtexture1Darray
    case RwTexture2DArray => D3D.SvtRwtexture2Darray
    case CBuffer => D3D.SvtCbuffer
    case TBuffer => D3D.SvtTbuffer
    case Buffer => D3D.SvtBuffer
    case RwBuffer => D3D.SvtRwbuffer
    case ByteAddressBuffer => D3D.SvtByteaddressBuffer
    case RwByteAddressBuffer => D3D.SvtRwbyteaddressBuffer
    case StructuredBuffer => D3D.SvtStructuredBuffer
    case RwStructuredBuffer => D3D.SvtRwstructuredBuffer
    case AppendStructuredBuffer => D3D.SvtAppendStructuredBuffer
    case ConsumeStructuredBuffer => D3D.SvtConsumeStructuredBuffer
    case RenderTargetView => D3D.SvtRendertargetview
    case DepthStencilView => D3D.SvtDepthstencilview
    case Blend => D3D.SvtBlend
    case Rasterizer => D3D.SvtRasterizer
    case DepthStencil => D3D.SvtDepthstencil
  }

  /** The variable-type translator answers `Unknown` exactly for the native types
      it does not list. */
  lemma VarTypeFallback(t: D3D.ShaderVariableType)
    ensures ToShaderVarType(t) == ShaderVarType.Unknown <==> !IsListedVarType(t)
  {
    if IsListedVarType(t) {
      VarTypeTranslationRoundTrip(t);
      assert NativeVarTypeOf(ShaderVarType.Unknown) == D3D.UnlistedVarType(-1);
    } else {
      UnlistedVarTypeIsUnknown(t);
    }
  }

  /** The native types with no portable counterpart all fall back to Unknown. */
  lemma UnlistedVarTypeIsUnknown(t: D3D.ShaderVariableType)
    requires !IsListedVarType(t)
    ensures ToShaderVarType(t) == ShaderVarType.Unknown
  {
    match t {
      case SvtPixelshader => case SvtVertexshader => case SvtPixelfragment => case SvtVertexfragment =>
      case SvtGeometryshader => case SvtHullshader => case SvtDomainshader => case SvtComputeshader =>
      case SvtInterfacePointer => case UnlistedVarType(_) =>
      case _ => assert false;
    }
  }

  /** The variable-type translator maps the listed native types back and forth:
      every listed native type is recovered from its portable image. The cases
      are split into small groups so that each group is a small proof. */
  lemma VarTypeTranslationRoundTrip(t: D3D.ShaderVariableType)
    ensures IsListedVarType(t) ==> NativeVarTypeOf(ToShaderVarType(t)) == t
  {
    if t.SvtVoid? || t.SvtBool? || t.SvtInt? || t.SvtFloat? || t.SvtString? {
      VarTypeRoundTrip0(t);
    }     else if t.SvtTexture? || t.SvtTexture1D? || t.SvtTexture2D? || t.SvtTexture3D? || t.SvtTexturecube? {
      VarTypeRoundTrip1(t);
    }     else if t.SvtSampler? || t.SvtSampler1D? || t.SvtSampler2D? || t.SvtSampler3D? || t.SvtSamplercube? {
      VarTypeRoundTrip2(t);
    }     else if t.SvtUint? || t.SvtUint8? || t.SvtRasterizer? || t.SvtDepthstencil? || t.SvtBlend? {
      VarTypeRoundTrip3(t);
    }     else if t.SvtBuffer? || t.SvtCbuffer? || t.SvtTbuffer? || t.SvtTexture1Darray? ||
        t.SvtTexture2Darray? {
      VarTypeRoundTrip4(t);
    }     else if t.SvtRendertargetview? || t.SvtDepthstencilview? || t.SvtTexture2Dms? ||
        t.SvtTexture2Dmsarray? || t.SvtTexturecubearray? {
      VarTypeRoundTrip5(t);
    }     else if t.SvtDouble? || t.SvtRwtexture1D? || t.SvtRwtexture1Darray? || t.SvtRwtexture2D? ||
        t.SvtRwtexture2Darray? {
      VarTypeRoundTrip6(t);
    }     else if t.SvtRwtexture3D? || t.SvtRwbuffer? || t.SvtByteaddressBuffer? || t.SvtRwbyteaddressBuffer? ||
        t.SvtStructuredBuffer? {
      VarTypeRoundTrip7(t);
    }     else if t.SvtRwstructuredBuffer? || t.SvtAppendStructuredBuffer? || t.SvtConsumeStructuredBuffer? ||
        t.SvtMin8float? || t.SvtMin10float? {
      VarTypeRoundTrip8(t);
    }     else if t.SvtMin16float? || t.SvtMin12int? || t.SvtMin16int? || t.SvtMin16Uint? || t.SvtInt16? {
      VarTypeRoundTrip9(t);
    }     else if t.SvtUint16? || t.SvtFloat16? || t.SvtInt64? || t.SvtUint64? || t.SvtForceDword? {
      VarTypeRoundTrip10(t);
    } else if IsListedVarType(t) {
      assert false;
    }
  }

  lemma VarTypeRoundTrip0(t: D3D.ShaderVariableType)
    requires t.SvtVoid? || t.SvtBool? || t.SvtInt? || t.SvtFloat? || t.SvtString?
    ensures NativeVarTypeOf(ToShaderVarType(t)) == t
  {
    match t {
      case SvtVoid => case SvtBool => case SvtInt => case SvtFloat => case SvtString =>
      case _ => assert false;
    }
  }

  lemma VarTypeRoundTrip1(t: D3D.ShaderVariableType)
    requires t.SvtTexture? || t.SvtTexture1D? || t.SvtTexture2D? || t.SvtTexture3D? || t.SvtTexturecube?
    ensures NativeVarTypeOf(ToShaderVarType(t)) == t
  {
    match t {
      case SvtTexture => case SvtTexture1D => case SvtTexture2D => case SvtTexture3D =>
      case SvtTexturecube =>
      case _ => assert false;
    }
  }

  lemma VarTypeRoundTrip2(t: D3D.ShaderVariableType)
    requires t.SvtSampler? || t.SvtSampler1D? || t.SvtSampler2D? || t.SvtSampler3D? || t.SvtSamplercube?
    ensures NativeVarTypeOf(ToShaderVarType(t)) == t
  {
    match t {
      case SvtSampler => case SvtSampler1D => case SvtSampler2D => case SvtSampler3D =>
      case SvtSamplercube =>
      case _ => assert false;
    }
  }

  lemma VarTypeRoundTrip3(t: D3D.ShaderVariableType)
    requires t.SvtUint? || t.SvtUint8? || t.SvtRasterizer? || t.SvtDepthstencil? || t.SvtBlend?
    ensures NativeVarTypeOf(ToShaderVarType(t)) == t
  {
    match t {
      case SvtUint => case SvtUint8 => case SvtRasterizer => case SvtDepthstencil =>
      case SvtBlend =>
      case _ => assert false;
    }
  }

  lemma VarTypeRoundTrip4(t: D3D.ShaderVariableType)
    requires t.SvtBuffer? || t.SvtCbuffer? || t.SvtTbuffer? || t.SvtTexture1Darray? || t.SvtTexture2Darray?
    ensures NativeVarTypeOf(ToShaderVarType(t)) == t
  {
    match t {
      case SvtBuffer => case SvtCbuffer => case SvtTbuffer => case SvtTexture1Darray =>
      case SvtTexture2Darray =>
      case _ => assert false;
    }
  }

  lemma VarTypeRoundTrip5(t: D3D.ShaderVariableType)
    requires t.SvtRendertargetview? || t.SvtDepthstencilview? || t.SvtTexture2Dms? ||
      t.SvtTexture2Dmsarray? || t.SvtTexturecubearray?
    ensures NativeVarTypeOf(ToShaderVarType(t)) == t
  {
    match t {
      case SvtRendertargetview => case SvtDepthstencilview => case SvtTexture2Dms =>
      case SvtTexture2Dmsarray => case SvtTexturecubearray =>
      case _ => assert false;
    }
  }

  lemma VarTypeRoundTrip6(t: D3D.ShaderVariableType)
    requires t.SvtDouble? || t.SvtRwtexture1D? || t.SvtRwtexture1Darray? || t.SvtRwtexture2D? ||
      t.SvtRwtexture2Darray?
    ensures NativeVarTypeOf(ToShaderVarType(t)) == t
  {
    match t {
      case SvtDouble => case SvtRwtexture1D => case SvtRwtexture1Darray => case SvtRwtexture2D =>
      case SvtRwtexture2Darray =>
      case _ => assert false;
    }
  }

  lemma VarTypeRoundTrip7(t: D3D.ShaderVariableType)
    requires t.SvtRwtexture3D? || t.SvtRwbuffer? || t.SvtByteaddressBuffer? || t.SvtRwbyteaddressBuffer? ||
      t.SvtStructuredBuffer?
    ensures NativeVarTypeOf(ToShaderVarType(t)) == t
  {
    match t {
      case SvtRwtexture3D => case SvtRwbuffer => case SvtByteaddressBuffer =>
      case SvtRwbyteaddressBuffer => case SvtStructuredBuffer =>
      case _ => assert false;
    }
  }

  lemma VarTypeRoundTrip8(t: D3D.ShaderVariableType)
    requires t.SvtRwstructuredBuffer? || t.SvtAppendStructuredBuffer? || t.SvtConsumeStructuredBuffer? ||
      t.SvtMin8float? || t.SvtMin10float?
    ensures NativeVarTypeOf(ToShaderVarType(t)) == t
  {
    match t {
      case SvtRwstructuredBuffer => case SvtAppendStructuredBuffer =>
      case SvtConsumeStructuredBuffer => case SvtMin8float => case SvtMin10float =>
      case _ => assert false;
    }
  }

  lemma VarTypeRoundTrip9(t: D3D.ShaderVariableType)
    requires t.SvtMin16float? || t.SvtMin12int? || t.SvtMin16int? || t.SvtMin16Uint? || t.SvtInt16?
    ensures NativeVarTypeOf(ToShaderVarType(t)) == t
  {
    match t {
      case SvtMin16float => case SvtMin12int => case SvtMin16int => case SvtMin16Uint =>
      case SvtInt16 =>
      case _ => assert false;
    }
  }

  lemma VarTypeRoundTrip10(t: D3D.ShaderVariableType)
    requires t.SvtUint16? || t.SvtFloat16? || t.SvtInt64? || t.SvtUint64? || t.SvtForceDword?
    ensures NativeVarTypeOf(ToShaderVarType(t)) == t
  {
    match t {
      case SvtUint16 => case SvtFloat16 => case SvtInt64 => case SvtUint64 => case SvtForceDword =>
      case _ => assert false;
    }
  }

  /** Every portable type other than `Unknown` is the image of a listed native type. */
  lemma VarTypeTranslationIsOnto(r: ShaderVarType)
    ensures r != ShaderVarType.Unknown ==> IsListedVarType(NativeVarTypeOf(r)) && ToShaderVarType(NativeVarTypeOf(r)) == r
  {
    if r.Void? || r.Bool? || r.UInt8? || r.Int? || r.UInt? {
      VarTypeOnto0(r);
    }     else if r.Float? || r.Double? || r.Min8Float? || r.Min10Float? || r.Min16Float? {
      VarTypeOnto1(r);
    }     else if r.Min12Int? || r.Min16Int? || r.Min16UInt? || r.Int16? || r.UInt16? {
      VarTypeOnto2(r);
    }     else if r.Float16? || r.Int64? || r.UInt64? || r.DWord? || r.String? {
      VarTypeOnto3(r);
    }     else if r.Texture? || r.Texture1D? || r.Texture2D? || r.Texture3D? || r.TextureCube? {
      VarTypeOnto4(r);
    }     else if r.Texture1DArray? || r.Texture2DArray? || r.TextureCubeArray? || r.Texture2DMs? ||
        r.Texture2DArrayMs? {
      VarTypeOnto5(r);
    }     else if r.Sampler? || r.Sampler1D? || r.Sampler2D? || r.Sampler3D? || r.SamplerCube? {
      VarTypeOnto6(r);
    }     else if r.RwTexture1D? || r.RwTexture2D? || r.RwTexture3D? || r.RwTexture1DArray? ||
        r.RwTexture2DArray? {
      VarTypeOnto7(r);
    }     else if r.CBuffer? || r.TBuffer? || r.Buffer? || r.RwBuffer? || r.ByteAddressBuffer? {
      VarTypeOnto8(r);
    }     else if r.RwByteAddressBuffer? || r.StructuredBuffer? || r.RwStructuredBuffer? ||
        r.AppendStructuredBuffer? || r.ConsumeStructuredBuffer? {
      VarTypeOnto9(r);
    }     else if r.RenderTargetView? || r.DepthStencilView? || r.Blend? || r.Rasterizer? || r.DepthStencil? {
      VarTypeOnto10(r);
    } else if r != ShaderVarType.Unknown {
      assert false;
    }
  }

  lemma VarTypeOnto0(r: ShaderVarType)
    requires r.Void? || r.Bool? || r.UInt8? || r.Int? || r.UInt?
    ensures IsListedVarType(NativeVarTypeOf(r)) && ToShaderVarType(NativeVarTypeOf(r)) == r
  {
    match r {
      case Void => case Bool => case UInt8 => case Int => case UInt =>
      case _ => assert false;
    }
  }

  lemma VarTypeOnto1(r: ShaderVarType)
    requires r.Float? || r.Double? || r.Min8Float? || r.Min10Float? || r.Min16Float?
    ensures IsListedVarType(NativeVarTypeOf(r)) && ToShaderVarType(NativeVarTypeOf(r)) == r
  {
    match r {
      case Float => case Double => case Min8Float => case Min10Float => case Min16Float =>
      case _ => assert false;
    }
  }

  lemma VarTypeOnto2(r: ShaderVarType)
    requires r.Min12Int? || r.Min16Int? || r.Min16UInt? || r.Int16? || r.UInt16?
    ensures IsListedVarType(NativeVarTypeOf(r)) && ToShaderVarType(NativeVarTypeOf(r)) == r
  {
    match r {
      case Min12Int => case Min16Int => case Min16UInt => case Int16 => case UInt16 =>
      case _ => assert false;
    }
  }

  lemma VarTypeOnto3(r: ShaderVarType)
    requires r.Float16? || r.Int64? || r.UInt64? || r.DWord? || r.String?
    ensures IsListedVarType(NativeVarTypeOf(r)) && ToShaderVarType(NativeVarTypeOf(r)) == r
  {
    match r {
      case Float16 => case Int64 => case UInt64 => case DWord => case String =>
      case _ => assert false;
    }
  }

  lemma VarTypeOnto4(r: ShaderVarType)
    requires r.Texture? || r.Texture1D? || r.Texture2D? || r.Texture3D? || r.TextureCube?
    ensures IsListedVarType(NativeVarTypeOf(r)) && ToShaderVarType(NativeVarTypeOf(r)) == r
  {
    match r {
      case Texture => case Texture1D => case Texture2D => case Texture3D => case TextureCube =>
      case _ => assert false;
    }
  }

  lemma VarTypeOnto5(r: ShaderVarType)
    requires r.Texture1DArray? || r.Texture2DArray? || r.TextureCubeArray? || r.Texture2DMs? ||
      r.Texture2DArrayMs?
    ensures IsListedVarType(NativeVarTypeOf(r)) && ToShaderVarType(NativeVarTypeOf(r)) == r
  {
    match r {
      case Texture1DArray => case Texture2DArray => case TextureCubeArray => case Texture2DMs =>
      case Texture2DArrayMs =>
      case _ => assert false;
    }
  }

  lemma VarTypeOnto6(r: ShaderVarType)
    requires r.Sampler? || r.Sampler1D? || r.Sampler2D? || r.Sampler3D? || r.SamplerCube?
    ensures IsListedVarType(NativeVarTypeOf(r)) && ToShaderVarType(NativeVarTypeOf(r)) == r
  {
    match r {
      case Sampler => case Sampler1D => case Sampler2D => case Sampler3D => case SamplerCube =>
      case _ => assert false;
    }
  }

  lemma VarTypeOnto7(r: ShaderVarType)
    requires r.RwTexture1D? || r.RwTexture2D? || r.RwTexture3D? || r.RwTexture1DArray? ||
      r.RwTexture2DArray?
    ensures IsListedVarType(NativeVarTypeOf(r)) && ToShaderVarType(NativeVarTypeOf(r)) == r
  {
    match r {
      case RwTexture1D => case RwTexture2D => case RwTexture3D => case RwTexture1DArray =>
      case RwTexture2DArray =>
      case _ => assert false;
    }
  }

  lemma VarTypeOnto8(r: ShaderVarType)
    requires r.CBuffer? || r.TBuffer? || r.Buffer? || r.RwBuffer? || r.ByteAddressBuffer?
    ensures IsListedVarType(NativeVarTypeOf(r)) && ToShaderVarType(NativeVarTypeOf(r)) == r
  {
    match r {
      case CBuffer => case TBuffer => case Buffer => case RwBuffer => case ByteAddressBuffer =>
      case _ => assert false;
    }
  }

  lemma VarTypeOnto9(r: ShaderVarType)
    requires r.RwByteAddressBuffer? || r.StructuredBuffer? || r.RwStructuredBuffer? ||
      r.AppendStructuredBuffer? || r.ConsumeStructuredBuffer?
    ensures IsListedVarType(NativeVarTypeOf(r)) && ToShaderVarType(NativeVarTypeOf(r)) == r
  {
    match r {
      case RwByteAddressBuffer => case StructuredBuffer => case RwStructuredBuffer =>
      case AppendStructuredBuffer => case ConsumeStructuredBuffer =>
      case _ => assert false;
    }
  }

  lemma VarTypeOnto10(r: ShaderVarType)
    requires r.RenderTargetView? || r.DepthStencilView? || r.Blend? || r.Rasterizer? || r.DepthStencil?
    ensures IsListedVarType(NativeVarTypeOf(r)) && ToShaderVarType(NativeVarTypeOf(r)) == r
  {
    match r {
      case RenderTargetView => case DepthStencilView => case Blend => case Rasterizer =>
      case DepthStencil =>
      case _ => assert false;
    }
  }

  lemma ToShaderVarTypeInjective(a: D3D.ShaderVariableType, b: D3D.ShaderVariableType)
    requires IsListedVarType(a) && IsListedVarType(b)
    requires ToShaderVarType(a) == ToShaderVarType(b)
    ensures a == b
  {
    VarTypeTranslationRoundTrip(a);
    VarTypeTranslationRoundTrip(b);
  }

  /** Every translator's fallback is the member with ordinal 0, C#'s `default`,
      whatever the unlisted code, and so is the image of each native member
      with value 0 that the tables leave to the fallback arm. */
  lemma FallbacksAreDefaults(c: int)
    ensures ToShaderResourceFlags(D3D.UnlistedInputType(c)) == 0
    ensures ToShaderTexStorage(D3D.UnlistedReturnType(c)).Ordinal() == 0
    ensures ToShaderTexDimension(D3D.UnlistedSrvDimension(c)).Ordinal() == 0
    ensures ToShaderVectorComponentType(D3D.UnlistedComponentType(c)).Ordinal() == 0
    ensures ToShaderSemantic(D3D.UnlistedName(c)).Ordinal() == 0
    ensures ToShaderMinPrecision(D3D.UnlistedMinPrecision(c)).Ordinal() == 0
    ensures ToShaderTypeKind(D3D.UnlistedClass(c)).Ordinal() == 0
    ensures ToShaderVarType(D3D.UnlistedVarType(c)).Ordinal() == 0
    ensures ToShaderTexStorage(D3D.ReturnTypeNone) == ShaderSrvStorage.Unknown
    ensures ToShaderTexDimension(D3D.SrvDimensionUnknown) == ShaderSrvDimension.Unknown
    ensures ToShaderVectorComponentType(D3D.RegisterComponentUnknown) == ShaderVectorComponentType.Unknown
    ensures ToShaderSemantic(D3D.NameUndefined) == Undefined
    ensures ToShaderMinPrecision(D3D.MinPrecisionDefault) == Default
    ensures ToShaderTypeKind(D3D.SvcScalar) == Scalar
  {
    assert ToShaderSemantic(D3D.UnlistedName(c)) == Undefined;
  }
}
