/** The native side: the Direct3D 12 reflection enumerations and descriptors the
    translators read, and the reflection object itself, modelled as immutable
    data. Each enumeration lists the members its translator names (plus, where
    Direct3D has them, members the translator leaves to its default arm) and an
    `Unlisted…(code)` case standing for any other numeric value. */
module D3D {
  import opened Base

  // ---------------------------------------------------------------- enumerations

  /** `D3D12_SHADER_VERSION_TYPE`, the kind tag in bits 16-31 of a version word. */
  datatype ShaderVersionType =
    | PixelShader | VertexShader | GeometryShader | HullShader | DomainShader | ComputeShader
    | Library | RayGenerationShader | IntersectionShader | AnyHitShader | ClosestHitShader
    | MissShader | CallableShader | MeshShader | AmplificationShader
    | UnknownVersionType(tag: nat)

  /** The numeric value of a kind: its declaration index, or the number it carries. */
  function VersionTypeTag(t: ShaderVersionType): nat {
    match t
    case PixelShader => 0
    case VertexShader => 1
    case GeometryShader => 2
    case HullShader => 3
    case DomainShader => 4
    case ComputeShader => 5
    case Library => 6
    case RayGenerationShader => 7
    case IntersectionShader => 8
    case AnyHitShader => 9
    case ClosestHitShader => 10
    case MissShader => 11
    case CallableShader => 12
    case MeshShader => 13
    case AmplificationShader => 14
    case UnknownVersionType(n) => n
  }

  /** The cast `(ShaderVersionType)tag`: numbers 0-14 are the named kinds, in order. */
  function VersionTypeOf(tag: nat): (t: ShaderVersionType)
    ensures t.UnknownVersionType? <==> tag > 14
    ensures VersionTypeTag(t) == tag
  {
    match tag
    case 0 => PixelShader
    case 1 => VertexShader
    case 2 => GeometryShader
    case 3 => HullShader
    case 4 => DomainShader
    case 5 => ComputeShader
    case 6 => Library
    case 7 => RayGenerationShader
    case 8 => IntersectionShader
    case 9 => AnyHitShader
    case 10 => ClosestHitShader
    case 11 => MissShader
    case 12 => CallableShader
    case 13 => MeshShader
    case 14 => AmplificationShader
    case _ => UnknownVersionType(tag)
  }

  /** `D3D_SHADER_INPUT_TYPE`: what kind of resource a binding is. */
  datatype ShaderInputType =
    | SitCbuffer | SitTbuffer | SitTexture | SitSampler | SitUavRwtyped | SitStructured
    | SitUavRwstructured | SitByteaddress | SitUavRwbyteaddress | SitUavAppendStructured
    | SitUavConsumeStructured | SitUavRwstructuredWithCounter | SitRtaccelerationstructure
    | SitUavFeedbacktexture
    | UnlistedInputType(code: int)

  /** `D3D_RESOURCE_RETURN_TYPE`; `ReturnTypeNone` is the zero member. */
  datatype ResourceReturnType =
    | ReturnTypeNone | ReturnTypeUnorm | ReturnTypeSNorm | ReturnTypeSint | ReturnTypeUint
    | ReturnTypeFloat | ReturnTypeMixed | ReturnTypeDouble | ReturnTypeContinued
    | UnlistedReturnType(code: int)

  /** `D3D_SRV_DIMENSION`; `SrvDimensionUnknown` is the zero member. */
  datatype SrvDimension =
    | SrvDimensionUnknown | SrvDimensionBuffer | SrvDimensionTexture1D | SrvDimensionTexture1Darray
    | SrvDimensionTexture2D | SrvDimensionTexture2Darray | SrvDimensionTexture2Dms
    | SrvDimensionTexture2Dmsarray | SrvDimensionTexture3D | SrvDimensionTexturecube
    | SrvDimensionTexturecubearray | SrvDimensionBufferex
    | UnlistedSrvDimension(code: int)

  /** `D3D_REGISTER_COMPONENT_TYPE`. */
  datatype RegisterComponentType =
    | RegisterComponentUnknown | RegisterComponentUint32 | RegisterComponentSint32
    | RegisterComponentFloat32
    | UnlistedComponentType(code: int)

  /** `D3D_NAME`: the system-value semantic of a signature element. */
  datatype Name =
    | NameUndefined | NamePosition | NameClipDistance | NameCullDistance
    | NameRenderTargetArrayIndex | NameViewportArrayIndex | NameVertexID | NamePrimitiveID
    | NameInstanceID | NameIsFrontFace | NameSampleIndex | NameFinalQuadEdgeTessfactor
    | NameFinalQuadInsideTessfactor | NameFinalTriEdgeTessfactor | NameFinalTriInsideTessfactor
    | NameFinalLineDetailTessfactor | NameFinalLineDensityTessfactor | NameBarycentrics
    | NameShadingrate | NameCullprimitive | NameTarget | NameDepth | NameCoverage
    | NameDepthGreaterEqual | NameDepthLessEqual | NameStencilRef | NameInnerCoverage
    | UnlistedName(code: int)

  /** `D3D_MIN_PRECISION`. */
  datatype MinPrecision =
    | MinPrecisionDefault | MinPrecisionFloat16 | MinPrecisionFloat28 | MinPrecisionSint16
    | MinPrecisionUint16 | MinPrecisionAny16 | MinPrecisionAny10
    | UnlistedMinPrecision(code: int)

  /** `D3D_SHADER_VARIABLE_CLASS`. */
  datatype ShaderVariableClass =
    | SvcScalar | SvcVector | SvcMatrixRows | SvcMatrixColumns | SvcObject | SvcStruct
    | SvcInterfaceClass | SvcInterfacePointer | SvcForceDword
    | UnlistedClass(code: int)

  /** `D3D_SHADER_VARIABLE_TYPE`. The shader-object, fragment and interface-pointer
      members are Direct3D members the translator does not name. */
  datatype ShaderVariableType =
    | SvtVoid | SvtBool | SvtInt | SvtFloat | SvtString | SvtTexture | SvtTexture1D
    | SvtTexture2D | SvtTexture3D | SvtTexturecube | SvtSampler | SvtSampler1D | SvtSampler2D
    | SvtSampler3D | SvtSamplercube | SvtUint | SvtUint8 | SvtRasterizer | SvtDepthstencil
    | SvtBlend | SvtBuffer | SvtCbuffer | SvtTbuffer | SvtTexture1Darray | SvtTexture2Darray
    | SvtRendertargetview | SvtDepthstencilview | SvtTexture2Dms | SvtTexture2Dmsarray
    | SvtTexturecubearray | SvtDouble | SvtRwtexture1D | SvtRwtexture1Darray | SvtRwtexture2D
    | SvtRwtexture2Darray | SvtRwtexture3D | SvtRwbuffer | SvtByteaddressBuffer
    | SvtRwbyteaddressBuffer | SvtStructuredBuffer | SvtRwstructuredBuffer
    | SvtAppendStructuredBuffer | SvtConsumeStructuredBuffer | SvtMin8float | SvtMin10float
    | SvtMin16float | SvtMin12int | SvtMin16int | SvtMin16Uint | SvtInt16 | SvtUint16
    | SvtFloat16 | SvtInt64 | SvtUint64 | SvtForceDword
    | SvtPixelshader | SvtVertexshader | SvtPixelfragment | SvtVertexfragment
    | SvtGeometryshader | SvtHullshader | SvtDomainshader | SvtComputeshader
    | SvtInterfacePointer
    | UnlistedVarType(code: int)

  // ----------------------------------------------------------------- descriptors

  /** The result of one `GetDesc`-style call: the descriptor, or a failed HRESULT. */
  datatype Fallible<+T> = Read(value: T) | Failed

  /** `D3D12_SHADER_DESC`, the fields the extraction reads. */
  datatype ShaderDesc = ShaderDesc(
    version: u32,
    creator: Option<string>,
    flags: u32,
    constantBuffers: u32,
    boundResources: u32,
    inputParameters: u32,
    outputParameters: u32,
    patchConstantParameters: u32)

  /** `D3D12_SHADER_INPUT_BIND_DESC`. */
  datatype ShaderInputBindDesc = ShaderInputBindDesc(
    name: Option<string>,
    inputType: ShaderInputType,
    bindPoint: u32,
    bindCount: u32,
    uFlags: u32,
    returnType: ResourceReturnType,
    dimension: SrvDimension,
    numSamples: u32,
    space: u32,
    uid: u32)

  /** `D3D12_SHADER_BUFFER_DESC`; `typeText` is the buffer type's enum name. */
  datatype ShaderBufferDesc = ShaderBufferDesc(
    name: Option<string>,
    typeText: string,
    variables: u32,
    size: u32,
    uFlags: u32)

  /** `D3D12_SHADER_VARIABLE_DESC`. `defaultValue` is the memory the default-value
      pointer designates (null: `None`), as far as it is readable. */
  datatype ShaderVariableDesc = ShaderVariableDesc(
    name: Option<string>,
    startOffset: u32,
    size: u32,
    uFlags: u32,
    defaultValue: Option<seq<bv8>>,
    startTexture: u32,
    textureSize: u32,
    startSampler: u32,
    samplerSize: u32)

  /** `D3D12_SHADER_TYPE_DESC`. */
  datatype ShaderTypeDesc = ShaderTypeDesc(
    varClass: ShaderVariableClass,
    varType: ShaderVariableType,
    rows: u32,
    columns: u32,
    elements: u32,
    members: u32,
    offset: u32,
    name: Option<string>)

  /** `D3D12_SIGNATURE_PARAMETER_DESC`. */
  datatype SignatureParameterDesc = SignatureParameterDesc(
    semanticName: Option<string>,
    semanticIndex: u32,
    register: u32,
    systemValueType: Name,
    componentType: RegisterComponentType,
    mask: bv8,
    readWriteMask: bv8,
    stream: u32,
    minPrecision: MinPrecision)

  // ------------------------------------------------------------ reflection graph

  /** Identity of one `ID3D12ShaderReflectionType` object. */
  type TypeHandle = nat

  /** A type object: its descriptor and the objects `GetMemberTypeByIndex` returns. */
  datatype TypeNode = TypeNode(desc: Fallible<ShaderTypeDesc>, members: seq<TypeHandle>)

  /** A variable object: its descriptor and the type object `GetType` returns. */
  datatype VariableNode = VariableNode(desc: Fallible<ShaderVariableDesc>, typeHandle: TypeHandle)

  /** A constant-buffer object and the variable objects `GetVariableByIndex` returns. */
  datatype ConstantBufferNode = ConstantBufferNode(desc: Fallible<ShaderBufferDesc>, variables: seq<VariableNode>)

  /** `GetThreadGroupSize`: the value it returns and the three sizes it writes. */
  datatype ThreadGroupQuery = ThreadGroupQuery(total: u32, x: u32, y: u32, z: u32)

  datatype SignatureKind = InputSignature | OutputSignature | PatchConstantSignature

  /** Everything an `ID3D12ShaderReflection` answers, as data. The sequences are
      indexed as the `…ByIndex` accessors are; the type objects form a graph,
      possibly shared and cyclic, keyed by handle. */
  datatype ShaderReflection = ShaderReflection(
    isSampleFrequencyShader: bool,
    minFeatureLevel: Fallible<string>,
    requiresFlags: u64,
    threadGroupSize: ThreadGroupQuery,
    desc: Fallible<ShaderDesc>,
    bindings: seq<Fallible<ShaderInputBindDesc>>,
    constantBuffers: seq<ConstantBufferNode>,
    inputs: seq<Fallible<SignatureParameterDesc>>,
    outputs: seq<Fallible<SignatureParameterDesc>>,
    patchConstants: seq<Fallible<SignatureParameterDesc>>,
    types: map<TypeHandle, TypeNode>)

  /** `GetResourceBindingDesc(i)`; an index past the end fails. */
  function GetResourceBindingDesc(r: ShaderReflection, i: nat): Fallible<ShaderInputBindDesc> {
    if i < |r.bindings| then r.bindings[i] else Failed
  }

  /** `GetConstantBufferByIndex(i)`; past the end it yields an object whose `GetDesc` fails. */
  function GetConstantBufferByIndex(r: ShaderReflection, i: nat): ConstantBufferNode {
    if i < |r.constantBuffers| then r.constantBuffers[i] else ConstantBufferNode(Failed, [])
  }

  /** `GetVariableByIndex(i)`; past the end it yields an object whose `GetDesc` fails. */
  function GetVariableByIndex(cb: ConstantBufferNode, i: nat): VariableNode {
    if i < |cb.variables| then cb.variables[i] else VariableNode(Failed, 0)
  }

  /** `GetInput/Output/PatchConstantParameterDesc(i)`. */
  function GetParameterDesc(r: ShaderReflection, kind: SignatureKind, i: nat): Fallible<SignatureParameterDesc> {
    var s := match kind
      case InputSignature => r.inputs
      case OutputSignature => r.outputs
      case PatchConstantSignature => r.patchConstants;
    if i < |s| then s[i] else Failed
  }

  /** `GetDesc` on a type object; an unknown handle fails. */
  function GetTypeDesc(g: map<TypeHandle, TypeNode>, h: TypeHandle): Fallible<ShaderTypeDesc> {
    if h in g then g[h].desc else Failed
  }

  /** `GetMemberTypeByIndex(i)`; past the end it is a null pointer. The asymmetry
      with the buffer and variable accessors above is the runtime's own: those hand
      back a shared invalid object whose `GetDesc` reports a failure, this one hands
      back no object at all, so the extraction, which calls `GetDesc` through the
      pointer, faults instead of reading a failure. */
  function GetMemberTypeByIndex(g: map<TypeHandle, TypeNode>, h: TypeHandle, i: nat): Option<TypeHandle> {
    if h in g && i < |g[h].members| then Some(g[h].members[i]) else None
  }

  /** The non-null names of the readable type objects of a graph. */
  function NamesIn(g: map<TypeHandle, TypeNode>): set<string> {
    set h | h in g && g[h].desc.Read? && g[h].desc.value.name.Some? :: g[h].desc.value.name.value
  }

  function RankOf(rank: map<TypeHandle, nat>, h: TypeHandle): nat {
    if h in rank then rank[h] else 0
  }

  /** Every path of member edges that stays among unnamed type objects is
      bounded: `rank` drops along every member edge leaving a readable unnamed
      object. Equivalently, every cycle of the type graph passes through a named
      type. (Without this, the extraction recurses without end.) */
  ghost predicate RankedGraph(g: map<TypeHandle, TypeNode>, rank: map<TypeHandle, nat>) {
    forall h, i :: h in g && g[h].desc.Read? && g[h].desc.value.name.None? && 0 <= i < |g[h].members| ==>
      RankOf(rank, g[h].members[i]) < RankOf(rank, h)
  }
}
