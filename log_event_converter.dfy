/**
 * `logback.LogEventConverter`: turns one logging event into the starter's
 * `EsLogDocument`. Zone lookup and timestamp formatting belong to
 * `java.time` and are parameters here.
 */
module LogEventConverter {
  import opened Wrappers

  /** A zone identifier, as `ZoneId.getId()` gives it. */
  type Zone = string

  /** The three settings of `config.ElasticsearchLoggingProperties` the converter reads. */
  datatype ConverterProperties = ConverterProperties(
    zoneId: Option<string>,
    applicationName: Option<string>,
    environment: Option<string>)

  /** The converter's final fields; the formatter is kept as its zone. */
  datatype Converter = Converter(zone: Zone, applicationName: Option<string>, environment: Option<string>)

  datatype Throwable = Throwable(message: Option<string>)

  /** What `convert` reads from an `ILoggingEvent`. */
  datatype LoggingEvent = LoggingEvent(
    timeStamp: int,
    level: string,
    loggerName: Option<string>,
    formattedMessage: Option<string>,
    threadName: Option<string>,
    throwable: Option<Throwable>,
    mdc: Option<map<string, Option<string>>>)

  /** The fields of `core.model.EsLogDocument` that `convert` can set; `None` is a field left null. */
  datatype EsLogDocument = EsLogDocument(
    timestamp: Option<string>,
    level: Option<string>,
    logger: Option<string>,
    message: Option<string>,
    thread: Option<string>,
    application: Option<string>,
    environment: Option<string>,
    exception: Option<string>,
    mdc: Option<map<string, Option<string>>>,
    traceId: Option<string>,
    spanId: Option<string>)

  /**
   * The constructor: the system default zone unless the properties name a
   * zone that `zoneOf` (`ZoneId.of`) accepts; an identifier it rejects is
   * ignored. Application and environment come from the properties, and
   * stay null without them.
   */
  function NewConverter(properties: Option<ConverterProperties>, systemDefault: Zone, zoneOf: string -> Option<Zone>): (c: Converter)
    ensures properties.None? ==> c == Converter(systemDefault, None, None)
    ensures properties.Some? ==> c.applicationName == properties.value.applicationName && c.environment == properties.value.environment
    ensures c.zone != systemDefault ==> properties.Some? && properties.value.zoneId.Some? && zoneOf(properties.value.zoneId.value) == Some(c.zone)
    ensures properties.Some? && properties.value.zoneId.Some? && zoneOf(properties.value.zoneId.value).None? ==> c.zone == systemDefault
  {
    var zone :=
      if properties.Some? && properties.value.zoneId.Some? then
        zoneOf(properties.value.zoneId.value).GetOr(systemDefault)
      else systemDefault;
    match properties
    case None => Converter(zone, None, None)
    case Some(p) => Converter(zone, p.applicationName, p.environment)
  }

  /** The no-argument constructor is the constructor given null properties. */
  function DefaultConverter(systemDefault: Zone): Converter
  {
    Converter(systemDefault, None, None)
  }

  /** The value of the first of two keys present in the map (a key mapped to null counts as present), else null. */
  function FirstPresent(m: map<string, Option<string>>, primary: string, secondary: string): (r: Option<string>)
    ensures primary in m ==> r == m[primary]
    ensures primary !in m && secondary in m ==> r == m[secondary]
    ensures r.Some? ==> Some(r.value) in m.Values
  {
    if primary in m then m[primary]
    else if secondary in m then m[secondary]
    else None
  }

  /** The MDC map is attached only when it is non-null and non-empty. */
  predicate HasMdc(event: LoggingEvent)
  {
    event.mdc.Some? && event.mdc.value != map[]
  }

  /**
   * `convert`: the formatted timestamp, the copied level, logger, message
   * and thread, application and environment when configured, the
   * throwable's message when there is one, and the MDC with the trace and
   * span identifiers taken from it.
   */
  function Convert(c: Converter, event: LoggingEvent, format: (Zone, int) -> string): (d: EsLogDocument)
    ensures d.timestamp == Some(format(c.zone, event.timeStamp))
    ensures d.level == Some(event.level)
    ensures d.logger == event.loggerName && d.message == event.formattedMessage && d.thread == event.threadName
    ensures d.application == c.applicationName && d.environment == c.environment
    ensures event.throwable.None? ==> d.exception.None?
    ensures event.throwable.Some? ==> d.exception == event.throwable.value.message
    ensures d.mdc.Some? <==> HasMdc(event)
    ensures d.mdc.Some? ==> d.mdc == event.mdc
    ensures !HasMdc(event) ==> d.traceId.None? && d.spanId.None?
    ensures HasMdc(event) && "traceId" in event.mdc.value ==> d.traceId == event.mdc.value["traceId"]
    ensures HasMdc(event) && "traceId" !in event.mdc.value && "trace_id" in event.mdc.value ==> d.traceId == event.mdc.value["trace_id"]
    ensures HasMdc(event) && "spanId" in event.mdc.value ==> d.spanId == event.mdc.value["spanId"]
    ensures HasMdc(event) && "spanId" !in event.mdc.value && "span_id" in event.mdc.value ==> d.spanId == event.mdc.value["span_id"]
    ensures d.traceId.Some? ==> d.mdc.Some? && Some(d.traceId.value) in d.mdc.value.Values
    ensures d.spanId.Some? ==> d.mdc.Some? && Some(d.spanId.value) in d.mdc.value.Values
  {
    var exception := match event.throwable
      case None => None
      case Some(t) => t.message;
    var attached := if HasMdc(event) then event.mdc else None;
    var traceId := if HasMdc(event) then FirstPresent(event.mdc.value, "traceId", "trace_id") else None;
    var spanId := if HasMdc(event) then FirstPresent(event.mdc.value, "spanId", "span_id") else None;
    EsLogDocument(
      Some(format(c.zone, event.timeStamp)), Some(event.level), event.loggerName, event.formattedMessage,
      event.threadName, c.applicationName, c.environment, exception, attached, traceId, spanId)
  }

  /** A converter built without properties never sets the application or the environment, whatever the event. */
  lemma DefaultConverterLeavesContextUnset(systemDefault: Zone, zoneOf: string -> Option<Zone>, event: LoggingEvent, format: (Zone, int) -> string)
    ensures NewConverter(None, systemDefault, zoneOf) == DefaultConverter(systemDefault)
    ensures var d := Convert(DefaultConverter(systemDefault), event, format);
      d.application.None? && d.environment.None?
  {
  }

  /** Without a throwable, and with no MDC, the document carries no exception, trace or span. */
  lemma PlainEventHasNoDiagnostics(c: Converter, event: LoggingEvent, format: (Zone, int) -> string)
    requires event.throwable.None? && event.mdc.None?
    ensures var d := Convert(c, event, format);
      d.exception.None? && d.mdc.None? && d.traceId.None? && d.spanId.None?
  {
  }
}
