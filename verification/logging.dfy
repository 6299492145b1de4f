/** The leveled diagnostics sink of Kyu (Logger.swift): the five levels and their order,
    the os_log type of each level, and the gate that decides whether a message is
    written. The os_log call itself is modelled as appending a record to `output`. */
module Logging {
  import opened Results

  datatype LogLevel = Info | Debug | Error | Fault | Off

  /** The `Int` raw value Swift assigns to each case, in declaration order. */
  function RawValue(level: LogLevel): (raw: nat) {
    match level
    case Info => 0
    case Debug => 1
    case Error => 2
    case Fault => 3
    case Off => 4
  }

  /** `<` of the `Comparable` conformance: raw values compared. */
  predicate Less(a: LogLevel, b: LogLevel) {
    RawValue(a) < RawValue(b)
  }

  /** `>=` as `Comparable` derives it from `<`. */
  predicate AtLeast(a: LogLevel, b: LogLevel) {
    !Less(a, b)
  }

  datatype OSLogType = InfoType | DebugType | ErrorType | FaultType

  /** The os_log type a level is written with; `Off` has none. */
  function LogType(level: LogLevel): (logType: Option<OSLogType>) {
    match level
    case Info => Some(InfoType)
    case Debug => Some(DebugType)
    case Error => Some(ErrorType)
    case Fault => Some(FaultType)
    case Off => None
  }

  /** The guard of `log(_:level:)`: at or above the threshold, and a log type exists. */
  predicate ShouldEmit(threshold: LogLevel, level: LogLevel) {
    AtLeast(level, threshold) && LogType(level).Some?
  }

  datatype LogRecord = LogRecord(kind: OSLogType, message: string)

  /** A logger: its threshold and everything it has written so far. */
  datatype Logger = Logger(logLevel: LogLevel, output: seq<LogRecord>)

  /** The threshold a `Logger` starts with. */
  const DefaultLogLevel: LogLevel := Info

  const InfoPrefix: string := "\U{2139}\U{FE0F} "
  const DebugPrefix: string := "\U{1F50E} "
  const ErrorPrefix: string := "\U{26A0}\U{FE0F} "
  const FaultPrefix: string := "\U{1F525} "

  function NewLogger(): (logger: Logger)
    ensures logger.output == []
  {
    Logger(DefaultLogLevel, [])
  }

  /** `log(_:level:)`: writes one record when the gate passes, nothing otherwise. */
  function Log(logger: Logger, message: string, level: LogLevel): (r: Logger)
    ensures r.logLevel == logger.logLevel
    ensures RawValue(logger.logLevel) <= RawValue(level) && level != Off ==>
              r.output == logger.output + [LogRecord(LogType(level).value, message)]
    ensures !(RawValue(logger.logLevel) <= RawValue(level) && level != Off) ==> r == logger
  {
    if ShouldEmit(logger.logLevel, level) then
      logger.(output := logger.output + [LogRecord(LogType(level).value, message)])
    else
      logger
  }

  function LogInfo(logger: Logger, message: string): (r: Logger)
    ensures r.logLevel == logger.logLevel
    ensures logger.logLevel == Info ==> r.output == logger.output + [LogRecord(InfoType, InfoPrefix + message)]
    ensures logger.logLevel != Info ==> r == logger
  {
    Log(logger, InfoPrefix + message, Info)
  }

  function LogDebug(logger: Logger, message: string): (r: Logger)
    ensures r.logLevel == logger.logLevel
    ensures logger.logLevel in {Info, Debug} ==> r.output == logger.output + [LogRecord(DebugType, DebugPrefix + message)]
    ensures logger.logLevel !in {Info, Debug} ==> r == logger
  {
    Log(logger, DebugPrefix + message, Debug)
  }

  function LogError(logger: Logger, message: string): (r: Logger)
    ensures r.logLevel == logger.logLevel
    ensures logger.logLevel in {Info, Debug, Error} ==> r.output == logger.output + [LogRecord(ErrorType, ErrorPrefix + message)]
    ensures logger.logLevel !in {Info, Debug, Error} ==> r == logger
  {
    Log(logger, ErrorPrefix + message, Error)
  }

  function LogFault(logger: Logger, message: string): (r: Logger)
    ensures r.logLevel == logger.logLevel
    ensures logger.logLevel != Off ==> r.output == logger.output + [LogRecord(FaultType, FaultPrefix + message)]
    ensures logger.logLevel == Off ==> r == logger
  {
    Log(logger, FaultPrefix + message, Fault)
  }

  /** The levels form a strict total order, info < debug < error < fault < off. */
  lemma LevelsTotallyOrdered()
    ensures Less(Info, Debug) && Less(Debug, Error) && Less(Error, Fault) && Less(Fault, Off)
    ensures forall a :: !Less(a, a)
    ensures forall a, b, c :: Less(a, b) && Less(b, c) ==> Less(a, c)
    ensures forall a, b :: a != b ==> Less(a, b) || Less(b, a)
  {
    forall a, b | a != b
      ensures Less(a, b) || Less(b, a)
    {
      assert RawValue(a) != RawValue(b) by {
        match a
        case Info =>
        case Debug =>
        case Error =>
        case Fault =>
        case Off =>
      }
    }
  }

  /** The gate passes exactly for a level at or above the threshold that is not `Off`. */
  lemma ShouldEmitIff(threshold: LogLevel, level: LogLevel)
    ensures ShouldEmit(threshold, level) <==> RawValue(threshold) <= RawValue(level) && level != Off
  {
  }

  /** A message at level `Off` is never written, whatever the threshold. */
  lemma OffMessagesNeverEmitted(logger: Logger, message: string)
    ensures Log(logger, message, Off) == logger
  {
  }

  /** With the threshold at `Off`, none of the four entry points writes anything. */
  lemma OffThresholdSilencesAll(logger: Logger, message: string)
    requires logger.logLevel == Off
    ensures LogInfo(logger, message) == logger
    ensures LogDebug(logger, message) == logger
    ensures LogError(logger, message) == logger
    ensures LogFault(logger, message) == logger
  {
  }

  /** A fresh logger (threshold `Info`) writes from all four entry points. */
  lemma DefaultLoggerEmitsAll(message: string)
    ensures |LogInfo(NewLogger(), message).output| == 1
    ensures |LogDebug(NewLogger(), message).output| == 1
    ensures |LogError(NewLogger(), message).output| == 1
    ensures |LogFault(NewLogger(), message).output| == 1
  {
  }
}
