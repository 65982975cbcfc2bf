/** Primitive domain types and capacity constants shared by the kernel subsystems. */
module Types {

  datatype Option<+T> = None | Some(value: T)

  /** A non-zero 32-bit node identifier. */
  type NodeId = n: nat | 0 < n < 0x1_0000_0000 witness 1

  const U64_MAX: nat := 0xFFFF_FFFF_FFFF_FFFF

  type u64 = n: nat | n <= U64_MAX

  type u32 = n: nat | n < 0x1_0000_0000

  const MAX_NODES: nat := 64
  const MAX_EDGES: nat := 256
  const NONCE_WINDOW: nat := 256
  const MAX_REVOCATIONS: nat := 256
  const MAX_RESERVATIONS: nat := 256
  const MAX_RESERVATION_TTL: nat := 4096
  const MAX_AUDIT_EVENTS: nat := 512

  datatype DenialClass = Halt | Failure

  /** Why a manifest is refused; the texts are those of the decoder and the ledger. */
  datatype ManifestFault =
    | WireTooShort | PayloadNotArray | PayloadNotTriple | VersionNotUint32 | EdgesNotArray | EdgesIndefinite
    | TooManyEdges | EdgeNotArray | EdgeNotPair | EdgeSrcNotUint32 | EdgeDstNotUint32 | EdgeSrcZero
    | EdgeDstZero | QuotasNotArray | QuotasIndefinite | TooManyQuotas | QuotaNotArray | QuotaNotPair
    | QuotaNodeNotUint32 | QuotaCeilingNotUint64 | QuotaNodeZero | DuplicateQuota | LedgerFull
    | SignatureRejected(text: string)
  {
    function Text(): string {
      match this
      case WireTooShort => "wire format too short (minimum 65 bytes)"
      case PayloadNotArray => "payload is not a CBOR array"
      case PayloadNotTriple => "expected 3-element array [version, edges, quotas]"
      case VersionNotUint32 => "version is not a uint32"
      case EdgesNotArray => "edges is not a CBOR array"
      case EdgesIndefinite => "edges array must have definite length"
      case TooManyEdges => "too many edges"
      case EdgeNotArray => "edge is not a CBOR array"
      case EdgeNotPair => "each edge must be [src, dst]"
      case EdgeSrcNotUint32 => "edge src is not uint32"
      case EdgeDstNotUint32 => "edge dst is not uint32"
      case EdgeSrcZero => "edge src must be non-zero"
      case EdgeDstZero => "edge dst must be non-zero"
      case QuotasNotArray => "quotas is not a CBOR array"
      case QuotasIndefinite => "quotas array must have definite length"
      case TooManyQuotas => "too many quota entries"
      case QuotaNotArray => "quota entry is not a CBOR array"
      case QuotaNotPair => "each quota must be [node, ceiling]"
      case QuotaNodeNotUint32 => "quota node is not uint32"
      case QuotaCeilingNotUint64 => "quota ceiling is not uint64"
      case QuotaNodeZero => "quota node must be non-zero"
      case DuplicateQuota => "duplicate node quota in manifest"
      case LedgerFull => "ledger node capacity exceeded (MAX_NODES)"
      case SignatureRejected(text) => text
    }
  }

  /** The kernel's error variants that the modelled operations can return. */
  datatype Error =
    | CapabilityDenied(reason: string)
    | QuotaExceeded(resource: string)
    | TopologyViolation(src: nat, dst: nat)
    | ManifestInvalid(detail: ManifestFault)
    | UndefinedState(context: string)
    | AuditFull
    | ReservationDenied(reason: string)
  {
    function Class(): DenialClass {
      if QuotaExceeded? then Failure else Halt
    }

    function Reason(): string {
      match this
      case CapabilityDenied(reason) => reason
      case QuotaExceeded(resource) => resource
      case TopologyViolation(_, _) => "edge not in boot manifest"
      case ManifestInvalid(detail) => detail.Text()
      case UndefinedState(context) => context
      case AuditFull => "audit log full; rotate to reclaim"
      case ReservationDenied(reason) => reason
    }
  }

  datatype Result<+T> = Ok(value: T) | Err(error: Error)

  /** `u64::saturating_add`. */
  function SaturatingAdd(a: u64, b: u64): u64 {
    if a + b <= U64_MAX then a + b else U64_MAX
  }
}
