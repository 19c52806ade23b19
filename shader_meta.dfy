/** The portable, backend-independent shader metadata document: the records a
    reflection backend fills in and a serializer writes out. */
module ShaderReflections {
  import opened Base

  /** Pipeline stage of the whole shader. */
  datatype ShaderStage = Other | Compute | Pixel | Vertex | Mesh | Task | Library
  {
    /** The C# enum value: its position in the declaration. */
    function Ordinal(): (n: nat)
      ensures n == 0 <==> this == Other
      ensures n < 7
    {
      match this
      case Other => 0
      case Compute => 1
      case Pixel => 2
      case Vertex => 3
      case Mesh => 4
      case Task => 5
      case Library => 6
    }
  }

  /** Extension records of the root document; one variant per backend. */
  datatype ShaderMetaExt =
    Dx12ShaderMetaExt(
      version: string,
      creator: Option<string>,
      flags: u32,
      minFeatureLevel: Option<string>,
      requiresFlags: u64,
      isSampleFrequencyShader: bool)

  /** The root document. Every collection is nullable; `null` is omitted when written. */
  datatype ShaderMeta = ShaderMeta(
    stage: ShaderStage,
    threadGroupSize: Option<seq<u32>>,
    res: Option<map<string, ShaderBindMeta>>,
    cbs: Option<map<string, ConstantBufferMeta>>,
    types: Option<map<string, ShaderTypeDef>>,
    inputs: Option<seq<Option<ShaderParam>>>,
    outputs: Option<seq<Option<ShaderParam>>>,
    patchs: Option<seq<Option<ShaderParam>>>,
    exts: Option<seq<ShaderMetaExt>>)

  /** `new ShaderMeta()`: every property at its default, `Exts` initialised to `[]`. */
  function NewShaderMeta(): (m: ShaderMeta)
    ensures m.exts == Some([])
    ensures m.stage.Ordinal() == 0
    ensures m.threadGroupSize.None? && m.res.None? && m.cbs.None? && m.types.None?
    ensures m.inputs.None? && m.outputs.None? && m.patchs.None?
  {
    ShaderMeta(Other, None, None, None, None, None, None, None, Some([]))
  }

  /** Extension records of constant buffers (the `ShaderResourceMeta` family). */
  datatype ShaderResourceMetaExt = Dx12ConstantBufferMetaExt(cbType: Option<string>, flags: u32)

  /** A constant buffer; `ShaderResourceMeta`'s `Name` and `Exts` are inlined. */
  datatype ConstantBufferMeta = ConstantBufferMeta(
    name: string,
    exts: Option<seq<ShaderResourceMetaExt>>,
    size: u32,
    vars: Option<map<string, ShaderVariableMeta>>)

  datatype ShaderVariableMetaExt = Dx12ShaderVariableMetaExt(flags: u32)

  /** One region (constant data, texture slots or sampler slots) a variable occupies. */
  datatype ShaderVariableMetaOffsetSize = ShaderVariableMetaOffsetSize(offset: u32, size: u32)

  /** A variable of a constant buffer; `typeName` refers to a key of the document's type map. */
  datatype ShaderVariableMeta = ShaderVariableMeta(
    name: string,
    typeName: Option<string>,
    data: Option<ShaderVariableMetaOffsetSize>,
    texture: Option<ShaderVariableMetaOffsetSize>,
    sampler: Option<ShaderVariableMetaOffsetSize>,
    defv: Option<seq<bv8>>,
    exts: Option<seq<ShaderVariableMetaExt>>)

  datatype ShaderBindMetaExt = Dx12ShaderBindMetaExt(id: u32, flags: u32)

  /** One bound resource; `flags` is a `ShaderResourceFlags` bit set. */
  datatype ShaderBindMeta = ShaderBindMeta(
    name: string,
    flags: bv32,
    point: u32,
    count: u32,
    space: u32,
    srv: Option<ShaderSrvBindMeta>,
    exts: Option<seq<ShaderBindMetaExt>>)

  /** Shape of a shader-resource view. */
  datatype ShaderSrvBindMeta = ShaderSrvBindMeta(
    storage: ShaderSrvStorage,
    dimension: ShaderSrvDimension,
    numSamples: u32)

  datatype ShaderSrvDimension =
    | Unknown | Buffer | Texture1D | Texture1DArray | Texture2D | Texture2DMs
    | Texture2DArray | Texture2DArrayMs | Texture3D | TextureCube | TextureCubeArray | BufferEx
  {
    function Ordinal(): (n: nat)
      ensures n == 0 <==> this == ShaderSrvDimension.Unknown
      ensures n < 12
    {
      match this
      case Unknown => 0
      case Buffer => 1
      case Texture1D => 2
      case Texture1DArray => 3
      case Texture2D => 4
      case Texture2DMs => 5
      case Texture2DArray => 6
      case Texture2DArrayMs => 7
      case Texture3D => 8
      case TextureCube => 9
      case TextureCubeArray => 10
      case BufferEx => 11
    }
  }

  datatype ShaderSrvStorage = Unknown | UNorm | SNorm | SInt | UInt | Float | Double | Continued | Mixed
  {
    function Ordinal(): (n: nat)
      ensures n == 0 <==> this == ShaderSrvStorage.Unknown
      ensures n < 9
    {
      match this
      case Unknown => 0
      case UNorm => 1
      case SNorm => 2
      case SInt => 3
      case UInt => 4
      case Float => 5
      case Double => 6
      case Continued => 7
      case Mixed => 8
    }
  }

  /** One signature element. `mask` holds the declared mask and the read/write
      mask, each a `ShaderVectorMask` byte. */
  datatype ShaderParam = ShaderParam(
    sv: ShaderSemantic,
    slot: Option<string>,
    index: u32,
    register: u32,
    mask: seq<bv8>,
    storage: ShaderVectorComponentType,
    stream: u32,
    precision: ShaderMinPrecision)

  datatype ShaderVectorComponentType = Unknown | UInt32 | SInt32 | Float32
  {
    function Ordinal(): (n: nat)
      ensures n == 0 <==> this == ShaderVectorComponentType.Unknown
      ensures n < 4
    {
      match this
      case Unknown => 0
      case UInt32 => 1
      case SInt32 => 2
      case Float32 => 3
    }
  }

  datatype ShaderSemantic =
    | Undefined | Position | ClipDistance | CullDistance | RenderTargetArrayIndex
    | ViewportArrayIndex | VertexId | PrimitiveId | InstanceId | IsFrontFace | SampleIndex
    | FinalQuadEdgeTessFactor | FinalQuadInsideTessFactor | FinalTriEdgeTessFactor
    | FinalTriInsideTessFactor | FinalLineDetailTessFactor | FinalLineDensityTessFactor
    | Barycentrics | ShadingRate | CullPrimitive | Target | Depth | Coverage
    | DepthGreaterEqual | DepthLessEqual | StencilRef | InnerCoverage
  {
    function Ordinal(): (n: nat)
      ensures n == 0 <==> this == Undefined
      ensures n < 27
    {
      match this
      case Undefined => 0
      case Position => 1
      case ClipDistance => 2
      case CullDistance => 3
      case RenderTargetArrayIndex => 4
      case ViewportArrayIndex => 5
      case VertexId => 6
      case PrimitiveId => 7
      case InstanceId => 8
      case IsFrontFace => 9
      case SampleIndex => 10
      case FinalQuadEdgeTessFactor => 11
      case FinalQuadInsideTessFactor => 12
      case FinalTriEdgeTessFactor => 13
      case FinalTriInsideTessFactor => 14
      case FinalLineDetailTessFactor => 15
      case FinalLineDensityTessFactor => 16
      case Barycentrics => 17
      case ShadingRate => 18
      case CullPrimitive => 19
      case Target => 20
      case Depth => 21
      case Coverage => 22
      case DepthGreaterEqual => 23
      case DepthLessEqual => 24
      case StencilRef => 25
      case InnerCoverage => 26
    }
  }

  datatype ShaderMinPrecision = Default | Float16 | Float10 | SInt16 | UInt16 | Any16 | Any10
  {
    function Ordinal(): (n: nat)
      ensures n == 0 <==> this == Default
      ensures n < 7
    {
      match this
      case Default => 0
      case Float16 => 1
      case Float10 => 2
      case SInt16 => 3
      case UInt16 => 4
      case Any16 => 5
      case Any10 => 6
    }
  }

  /** A flattened type. `members` lists the member types by name, each a key of
      the document's type map; it is null for a type without members. */
  datatype ShaderTypeDef = ShaderTypeDef(
    name: string,
    kind: ShaderTypeKind,
    varType: ShaderVarType,
    columns: u32,
    rows: u32,
    length: u32,
    offset: u32,
    members: Option<seq<string>>)

  datatype ShaderTypeKind =
    | Scalar | Vector | MatrixRowMajor | MatrixColumnMajor | Object | Struct | Class | Pointer | DWord
  {
    function Ordinal(): (n: nat)
      ensures n == 0 <==> this == Scalar
      ensures n < 9
    {
      match this
      case Scalar => 0
      case Vector => 1
      case MatrixRowMajor => 2
      case MatrixColumnMajor => 3
      case Object => 4
      case Struct => 5
      case Class => 6
      case Pointer => 7
      case DWord => 8
    }
  }

  datatype ShaderVarType =
    | Unknown | Void | Bool | UInt8 | Int | UInt | Float | Double
    | Min8Float | Min10Float | Min16Float | Min12Int | Min16Int | Min16UInt
    | Int16 | UInt16 | Float16 | Int64 | UInt64 | DWord | String
    | Texture | Texture1D | Texture2D | Texture3D | TextureCube
    | Texture1DArray | Texture2DArray | TextureCubeArray | Texture2DMs | Texture2DArrayMs
    | Sampler | Sampler1D | Sampler2D | Sampler3D | SamplerCube
    | RwTexture1D | RwTexture2D | RwTexture3D | RwTexture1DArray | RwTexture2DArray
    | CBuffer | TBuffer | Buffer | RwBuffer | ByteAddressBuffer | RwByteAddressBuffer
    | StructuredBuffer | RwStructuredBuffer | AppendStructuredBuffer | ConsumeStructuredBuffer
    | RenderTargetView | DepthStencilView | Blend | Rasterizer | DepthStencil
  {
    function Ordinal(): (n: nat)
      ensures n == 0 <==> this == ShaderVarType.Unknown
      ensures n < 56
    {
      match this
      case Unknown => 0
      case Void => 1
      case Bool => 2
      case UInt8 => 3
      case Int => 4
      case UInt => 5
      case Float => 6
      case Double => 7
      case Min8Float => 8
      case Min10Float => 9
      case Min16Float => 10
      case Min12Int => 11
      case Min16Int => 12
      case Min16UInt => 13
      case Int16 => 14
      case UInt16 => 15
      case Float16 => 16
      case Int64 => 17
      case UInt64 => 18
      case DWord => 19
      case String => 20
      case Texture => 21
      case Texture1D => 22
      case Texture2D => 23
      case Texture3D => 24
      case TextureCube => 25
      case Texture1DArray => 26
      case Texture2DArray => 27
      case TextureCubeArray => 28
      case Texture2DMs => 29
      case Texture2DArrayMs => 30
      case Sampler => 31
      case Sampler1D => 32
      case Sampler2D => 33
      case Sampler3D => 34
      case SamplerCube => 35
      case RwTexture1D => 36
      case RwTexture2D => 37
      case RwTexture3D => 38
      case RwTexture1DArray => 39
      case RwTexture2DArray => 40
      case CBuffer => 41
      case TBuffer => 42
      case Buffer => 43
      case RwBuffer => 44
      case ByteAddressBuffer => 45
      case RwByteAddressBuffer => 46
      case StructuredBuffer => 47
      case RwStructuredBuffer => 48
      case AppendStructuredBuffer => 49
      case ConsumeStructuredBuffer => 50
      case RenderTargetView => 51
      case DepthStencilView => 52
      case Blend => 53
      case Rasterizer => 54
      case DepthStencil => 55
    }
  }
}

/** `ShaderResourceFlags`: single capability/shape bits and the composites built
    from them by bitwise OR, so that a single-bit test on a composite finds every
    capability it was built from. */
module ShaderResourceFlags {

  const None: bv32 := 0

  const Cbv: bv32 := 1 << 0
  const Srv: bv32 := 1 << 1
  const Uav: bv32 := 1 << 2

  const Buffer: bv32 := 1 << 3
  const Texture: bv32 := 1 << 4
  const Sampler: bv32 := 1 << 5

  const Uniform: bv32 := 1 << 6

  const CBuffer: bv32 := Cbv | Buffer | Uniform
  const TBuffer: bv32 := Srv | Buffer | Uniform

  const IsStructured: bv32 := 1 << 10
  const IsByteAddress: bv32 := 1 << 11

  const RwBuffer: bv32 := Buffer | Uav
  const Structured: bv32 := IsStructured | Buffer | Srv
  const RwStructured: bv32 := IsStructured | Buffer | Uav
  const ByteAddress: bv32 := IsByteAddress | Buffer | Srv
  const RwByteAddress: bv32 := IsByteAddress | Buffer | Uav

  const Counter: bv32 := 1 << 16
  const Append: bv32 := 1 << 17
  const Consume: bv32 := 1 << 18

  const AppendStructuredBuffer: bv32 := Append | RwStructured
  const ConsumeStructuredBuffer: bv32 := Consume | RwStructured

  const RwStructuredWithCounter: bv32 := Counter | RwStructured

  const AccelerationStructure: bv32 := 1 << 20

  const FeedbackTexture: bv32 := 1 << 21

  /** The single-bit members, in declaration order. */
  const BaseBits: seq<bv32> :=
    [Cbv, Srv, Uav, Buffer, Texture, Sampler, Uniform, IsStructured, IsByteAddress,
     Counter, Append, Consume, AccelerationStructure, FeedbackTexture]

  /** The members defined as an OR of other members. */
  const Composites: seq<bv32> :=
    [CBuffer, TBuffer, RwBuffer, Structured, RwStructured, ByteAddress, RwByteAddress,
     AppendStructuredBuffer, ConsumeStructuredBuffer, RwStructuredWithCounter]

  /** A consumer's single-bit (or multi-bit) capability test. */
  predicate Has(flags: bv32, bits: bv32) {
    flags & bits == bits
  }

  predicate SingleBit(b: bv32) {
    b != 0 && b & (b - 1) == 0
  }

  /** The base members sit at bits 0-6, 10, 11, 16, 17, 18, 20 and 21, one bit each,
      and no two of them share a bit. */
  lemma BaseBitsAreDisjointSingleBits()
    ensures BaseBits ==
      [1 << 0, 1 << 1, 1 << 2, 1 << 3, 1 << 4, 1 << 5, 1 << 6, 1 << 10, 1 << 11,
       1 << 16, 1 << 17, 1 << 18, 1 << 20, 1 << 21]
    ensures forall i :: 0 <= i < |BaseBits| ==> SingleBit(BaseBits[i])
    ensures forall i, j :: 0 <= i < j < |BaseBits| ==> BaseBits[i] & BaseBits[j] == 0
  {
  }

  /** The three UAV variants that extend `RwStructured` keep all of its bits. */
  lemma StructuredUavVariantsExtendRwStructured()
    ensures Has(AppendStructuredBuffer, RwStructured)
    ensures Has(ConsumeStructuredBuffer, RwStructured)
    ensures Has(RwStructuredWithCounter, RwStructured)
    ensures Has(RwStructuredWithCounter, Uav) && Has(RwStructuredWithCounter, IsStructured)
    ensures Has(RwStructuredWithCounter, Counter)
  {
  }

  /** No composite claims to be both a read-only and a writable view, nor both a
      structured and a byte-address buffer. */
  lemma CompositesAreConsistent()
    ensures forall i :: 0 <= i < |Composites| ==>
      !(Has(Composites[i], Srv) && Has(Composites[i], Uav)) &&
      !(Has(Composites[i], IsStructured) && Has(Composites[i], IsByteAddress))
  {
  }

  /** Every composite is non-empty and differs from every other member. */
  lemma CompositesAreDistinct()
    ensures forall i, j :: 0 <= i < j < |Composites| ==> Composites[i] != Composites[j]
    ensures forall i, j :: 0 <= i < |Composites| && 0 <= j < |BaseBits| ==> Composites[i] != BaseBits[j]
  {
  }
}

/** `ShaderVectorMask`: one bit per vector component and a named member for every
    combination of them. */
module ShaderVectorMask {

  const x: bv8 := 1 << 0
  const y: bv8 := 1 << 1
  const z: bv8 := 1 << 2
  const w: bv8 := 1 << 3

  const xy: bv8 := x | y
  const xz: bv8 := x | z
  const xw: bv8 := x | w
  const yz: bv8 := y | z
  const yw: bv8 := y | w
  const zw: bv8 := z | w

  const xyz: bv8 := x | y | z
  const xyw: bv8 := x | y | w
  const xzw: bv8 := x | z | w
  const yzw: bv8 := y | z | w

  const xyzw: bv8 := x | y | z | w

  const Named: seq<bv8> := [x, y, z, w, xy, xz, xw, yz, yw, zw, xyz, xyw, xzw, yzw, xyzw]

  /** The named masks are exactly the fifteen non-empty subsets of {x, y, z, w}:
      each fits in the low four bits, no two coincide, and every non-empty
      four-bit mask has a name. */
  lemma NamedMasksAreTheNonEmptyNibbles()
    ensures forall i :: 0 <= i < |Named| ==> 0 < Named[i] <= 15 && Named[i] & xyzw == Named[i]
    ensures forall i, j :: 0 <= i < j < |Named| ==> Named[i] != Named[j]
    ensures forall m: bv8 :: 0 < m <= 15 ==> m in Named
  {
  }
}
