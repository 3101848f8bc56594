/** The element and attribute names of the Usage Record Format 1.0 and of the
    SGAS, DEISA, logger and file-transfer extensions, and the element tree the
    encoder builds and the decoder walks. A name is compared by identity, as
    ElementTree compares `{namespace}local` strings; `Other` stands for any
    name outside this alphabet. */
module UrElements {
  import opened Wrappers

  datatype Namespace = OgfUr | Deisa | SgasVo | SgasUr | Logger | Transfer

  function NamespaceUri(n: Namespace): string {
    match n
    case OgfUr => "http://schema.ogf.org/urf/2003/09/urf"
    case Deisa => "http://rmis.deisa.org/acct"
    case SgasVo => "http://www.sgas.se/namespaces/2009/05/ur/vo"
    case SgasUr => "http://www.sgas.se/namespaces/2009/07/ur"
    case Logger => "http://www.sgas.se/namespaces/2010/08/logger"
    case Transfer => "http://www.sgas.se/namespaces/2010/10/filetransfer"
  }

  datatype Tag =
    // the Usage Record Format proper
    | UsageRecords | JobUsageRecord | RecordIdentity | RecordId | CreateTime
    | JobIdentity | GlobalJobId | LocalJobId | UserIdentity | LocalUserId
    | GlobalUserName | JobName | Status | Charge | WallDuration | CpuDuration
    | NodeCount | Processors | StartTime | EndTime | ProjectName | SubmitHost
    | MachineName | Host | Queue
    // SGAS virtual organisation extension
    | Vo | VoType | VoName | VoIssuer | VoAttribute | VoGroup | VoRole | VoCapability
    // DEISA submit time
    | SubmitTime
    // SGAS auxiliary extensions
    | InsertTime | UserTime | KernelTime | ExitCode | MajorPageFaults
    | RuntimeEnvironment | Ksi2kWallDuration | Ksi2kCpuDuration
    // logger
    | LoggerName | LoggerVersion
    // file transfers
    | FileTransfers | FileDownload | FileUpload | TransferUrl | TransferSize
    | TransferStartTime | TransferEndTime | TransferBypassCache | TransferRetrievedFromCache
    // any other name
    | Other(name: string)

  /** The namespace a known name belongs to. */
  function NamespaceOf(t: Tag): Option<Namespace> {
    match t
    case Other(_) => None
    case Vo | VoType | VoName | VoIssuer | VoAttribute | VoGroup | VoRole | VoCapability => Some(SgasVo)
    case SubmitTime => Some(Deisa)
    case InsertTime | UserTime | KernelTime | ExitCode | MajorPageFaults
      | RuntimeEnvironment | Ksi2kWallDuration | Ksi2kCpuDuration => Some(SgasUr)
    case LoggerName | LoggerVersion => Some(Logger)
    case FileTransfers | FileDownload | FileUpload | TransferUrl | TransferSize
      | TransferStartTime | TransferEndTime | TransferBypassCache | TransferRetrievedFromCache => Some(Transfer)
    case _ => Some(OgfUr)
  }

  /** An XML element: its name, attributes, text (None when it has none) and
      child elements in document order. */
  datatype Element = Element(tag: Tag, attrs: map<Tag, string>, text: Option<string>, children: seq<Element>)

  /** `element.get(name)` */
  function GetAttr(e: Element, name: Tag): Option<string> {
    if name in e.attrs then Some(e.attrs[name]) else None
  }

  /** An element with text and nothing else, as `SubElement` plus `.text` makes it. */
  function TextElement(tag: Tag, text: string): Element {
    Element(tag, map[], Some(text), [])
  }
}
