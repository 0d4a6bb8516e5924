/**
 * The one-shot text-generation request: its headers and its JSON body.
 * What the host reports about itself (compiler version, Windows version,
 * CPU identification) is an input; the network call is not modelled.
 */
module Generation {
  import opened Wrappers
  import opened JsonValue
  import opened RustInts
  import opened HttpHeader
  import Decimal

  /** `GenerationError::InvalidHeader`: a header value the HTTP library
      rejects (named here by its header). */
  datatype GenerationError = InvalidHeader(header: string)

  /** `windows_version::OsVersion`. */
  datatype WindowsVersion = WindowsVersion(major: u32, minor: u32, build: u32)

  /** What `cpuid` reports, when it reports anything. */
  datatype CpuInfo = CpuInfo(family: u8, model: u8, stepping: u8, vendor: Option<string>)

  datatype Host = Host(rustVersion: string, windows: WindowsVersion, arch: string, cpu: Option<CpuInfo>)

  /* ---------------------------------------------------------------------
     Platform and user agent
     --------------------------------------------------------------------- */

  const Win11FirstBuild := 22000

  /** Windows 11 starts at build 22000. */
  function OsName(build: u32): (name: string)
    ensures name == "Windows-11" <==> build >= Win11FirstBuild
    ensures name == "Windows-10" <==> build < Win11FirstBuild
  {
    if build >= Win11FirstBuild then "Windows-11" else "Windows-10"
  }

  /** `major.minor.build`. */
  function FullVersion(v: WindowsVersion): string {
    Decimal.ToDecimal(v.major) + "." + Decimal.ToDecimal(v.minor) + "." + Decimal.ToDecimal(v.build)
  }

  /** The platform field: the product name, the dotted version, `SP0`. */
  function Platform(v: WindowsVersion): (p: string)
    ensures |p| == 11 + |FullVersion(v)| + 4
    ensures p[..11] == OsName(v.build) + "-"
    ensures p[11..|p| - 4] == FullVersion(v)
    ensures p[|p| - 4..] == "-SP0"
  {
    OsName(v.build) + "-" + FullVersion(v) + "-SP0"
  }

  predicate AllDigits(s: string) {
    forall i :: 0 <= i < |s| ==> Decimal.IsDigit(s[i])
  }

  /** After a run of digits, the first character that is not a digit is
      the one that follows the run. */
  lemma FirstNonDigit(a: string, sep: string, b: string)
    requires AllDigits(a) && |sep| > 0 && !Decimal.IsDigit(sep[0])
    ensures !Decimal.IsDigit((a + sep + b)[|a|])
    ensures forall i :: 0 <= i < |a| ==> Decimal.IsDigit((a + sep + b)[i])
  {
    assert forall i :: 0 <= i < |a| ==> (a + sep + b)[i] == a[i];
    assert (a + sep + b)[|a|] == sep[0];
  }

  /** A number followed by a separator that starts with a non-digit splits
      back uniquely into the number and what follows the separator. */
  lemma SplitAfterNumber(a: string, sep: string, b: string, c: string, d: string)
    requires AllDigits(a) && AllDigits(c) && |sep| > 0 && !Decimal.IsDigit(sep[0])
    requires a + sep + b == c + sep + d
    ensures a == c && b == d
  {
    var s := a + sep + b;
    FirstNonDigit(a, sep, b);
    FirstNonDigit(c, sep, d);
    assert |a| == |c|;
    assert a == s[..|a|] == c;
    assert b == s[|a| + |sep|..] == d;
  }

  /** The dotted version identifies the Windows version. */
  lemma FullVersionInjective(v1: WindowsVersion, v2: WindowsVersion)
    requires FullVersion(v1) == FullVersion(v2)
    ensures v1 == v2
  {
    var rest1 := Decimal.ToDecimal(v1.minor) + "." + Decimal.ToDecimal(v1.build);
    var rest2 := Decimal.ToDecimal(v2.minor) + "." + Decimal.ToDecimal(v2.build);
    assert FullVersion(v1) == Decimal.ToDecimal(v1.major) + "." + rest1;
    assert FullVersion(v2) == Decimal.ToDecimal(v2.major) + "." + rest2;
    SplitAfterNumber(Decimal.ToDecimal(v1.major), ".", rest1, Decimal.ToDecimal(v2.major), rest2);
    SplitAfterNumber(Decimal.ToDecimal(v1.minor), ".", Decimal.ToDecimal(v1.build),
                     Decimal.ToDecimal(v2.minor), Decimal.ToDecimal(v2.build));
    Decimal.ToDecimalInjective(v1.major, v2.major);
    Decimal.ToDecimalInjective(v1.minor, v2.minor);
    Decimal.ToDecimalInjective(v1.build, v2.build);
  }

  /** The platform string identifies the Windows version it was built
      from. */
  lemma PlatformIdentifiesVersion(v1: WindowsVersion, v2: WindowsVersion)
    requires Platform(v1) == Platform(v2)
    ensures v1 == v2
  {
    var p := Platform(v1);
    assert FullVersion(v1) == p[11..|p| - 4] == FullVersion(v2);
    FullVersionInjective(v1, v2);
  }

  const UnknownProcessor := "Unknown Processor"
  const UnknownVendor := "Unknown"
  const FamilyField := " Family "

  /** The vendor name `cpuid` reports, or `Unknown`. */
  function VendorOrUnknown(c: CpuInfo): string {
    if c.vendor.Some? then c.vendor.value else UnknownVendor
  }

  /** The numbers of a `cpuid` answer and the vendor, after the family
      field's label: `<family> Model <model> Stepping <stepping>, <vendor>`. */
  function CpuFields(c: CpuInfo): string {
    Decimal.ToDecimal(c.family) + " Model " + ModelField(c)
  }

  function ModelField(c: CpuInfo): string {
    Decimal.ToDecimal(c.model) + " Stepping " + SteppingField(c)
  }

  function SteppingField(c: CpuInfo): string {
    Decimal.ToDecimal(c.stepping) + ", " + VendorOrUnknown(c)
  }

  /** The processor field: a fixed text when `cpuid` has no feature
      information; otherwise the architecture, the family label, then
      family, model, stepping and the vendor (`Unknown` when none is
      reported). */
  function ProcessorInfo(arch: string, cpu: Option<CpuInfo>): (info: string)
    ensures info == UnknownProcessor <==> cpu.None?
    ensures cpu.Some? ==>
      && |info| == |arch| + |FamilyField| + |CpuFields(cpu.value)|
      && info[..|arch| + |FamilyField|] == arch + FamilyField
      && info[|arch| + |FamilyField|..] == CpuFields(cpu.value)
    ensures cpu.Some? ==>
      && |info| > |VendorOrUnknown(cpu.value)| + 2
      && info[|info| - |VendorOrUnknown(cpu.value)| - 2..] == ", " + VendorOrUnknown(cpu.value)
  {
    match cpu
    case Some(c) =>
      assert |CpuFields(c)| >= 19;
      arch + FamilyField + CpuFields(c)
    case None => UnknownProcessor
  }

  /** The fields after the family label identify the family, model and
      stepping. */
  lemma CpuFieldsIdentifyCpu(c1: CpuInfo, c2: CpuInfo)
    requires CpuFields(c1) == CpuFields(c2)
    ensures c1.family == c2.family && c1.model == c2.model && c1.stepping == c2.stepping
  {
    SplitAfterNumber(Decimal.ToDecimal(c1.family), " Model ", ModelField(c1), Decimal.ToDecimal(c2.family), ModelField(c2));
    SplitAfterNumber(Decimal.ToDecimal(c1.model), " Stepping ", SteppingField(c1), Decimal.ToDecimal(c2.model), SteppingField(c2));
    SplitAfterNumber(Decimal.ToDecimal(c1.stepping), ", ", VendorOrUnknown(c1), Decimal.ToDecimal(c2.stepping), VendorOrUnknown(c2));
    Decimal.ToDecimalInjective(c1.family, c2.family);
    Decimal.ToDecimalInjective(c1.model, c2.model);
    Decimal.ToDecimalInjective(c1.stepping, c2.stepping);
  }

  /** On one architecture, the processor field identifies the family,
      model and stepping `cpuid` reported. */
  lemma ProcessorInfoIdentifiesCpu(arch: string, c1: CpuInfo, c2: CpuInfo)
    requires ProcessorInfo(arch, Some(c1)) == ProcessorInfo(arch, Some(c2))
    ensures c1.family == c2.family && c1.model == c2.model && c1.stepping == c2.stepping
  {
    var p := ProcessorInfo(arch, Some(c1));
    assert CpuFields(c1) == p[|arch| + |FamilyField|..] == CpuFields(c2);
    CpuFieldsIdentifyCpu(c1, c2);
  }

  /** The `incremental_to_full` flag: set exactly when the answer is
      streamed but the caller wants each chunk to repeat the whole text. */
  function IncrementalToFull(stream: bool, incrementalOutput: bool): (flag: nat)
    ensures flag == 1 <==> stream && !incrementalOutput
    ensures flag == 0 <==> !(stream && !incrementalOutput)
  {
    if stream && !incrementalOutput then 1 else 0
  }

  const UserAgentPrefix := "dashscope/0.1.0;rust/"
  const FlagField := ";incremental_to_full/"

  /** The fields describing the host, between the client identity and
      the flag: the compiler version, then the platform and processor
      fields under their labels. */
  function HostFields(host: Host): string {
    host.rustVersion + ";platform/" + Platform(host.windows)
      + ";processor/" + ProcessorInfo(host.arch, host.cpu)
  }

  /** The user agent: the client identity, the compiler version, the
      platform and the processor fields, then the `incremental_to_full`
      flag written as one decimal digit. */
  function UserAgent(host: Host, stream: bool, incrementalOutput: bool): (ua: string)
    ensures |ua| == |UserAgentPrefix| + |HostFields(host)| + |FlagField| + 1
    ensures ua[..|UserAgentPrefix|] == UserAgentPrefix
    ensures ua[|UserAgentPrefix|..|ua| - |FlagField| - 1] == HostFields(host)
    ensures ua[|ua| - |FlagField| - 1..|ua| - 1] == FlagField
    ensures Decimal.IsDigit(ua[|ua| - 1])
    ensures Decimal.DigitValue(ua[|ua| - 1]) == IncrementalToFull(stream, incrementalOutput)
  {
    var mid := HostFields(host);
    var digit := Decimal.ToDecimal(IncrementalToFull(stream, incrementalOutput));
    assert |digit| == 1;
    var ua := UserAgentPrefix + mid + (FlagField + digit);
    assert ua[|UserAgentPrefix|..|UserAgentPrefix| + |mid|] == mid;
    ua
  }

  /* ---------------------------------------------------------------------
     Headers
     --------------------------------------------------------------------- */

  const Accept := "Accept"
  const Sse := "X-DashScope-SSE"
  const Authorization := "Authorization"
  const ContentType := "Content-Type"
  const UserAgentHeader := "user-agent"

  /** The authorization value, with the scheme capitalised. It is a
      valid header value exactly when the API key is. */
  function Bearer(apiKey: string): (b: string)
    ensures |b| == 7 + |apiKey| && b[..7] == "Bearer " && b[7..] == apiKey
    ensures ValidHeaderValue(b) <==> ValidHeaderValue(apiKey)
  {
    ValidAfterPrefix("Bearer ", apiKey);
    "Bearer " + apiKey
  }

  /** `Generation::build_request_header`: the headers inserted one after
      another; the first value the HTTP library rejects ends the build
      with an error. The constant values always parse. */
  method BuildRequestHeader(apiKey: string, stream: bool, incrementalOutput: bool, host: Host)
    returns (r: Result<map<string, string>, GenerationError>)
    ensures r.Success? <==>
      ValidHeaderValue(apiKey) && ValidHeaderValue(UserAgent(host, stream, incrementalOutput))
    ensures !ValidHeaderValue(apiKey) ==> r == Failure(InvalidHeader(Authorization))
    ensures ValidHeaderValue(apiKey) && !ValidHeaderValue(UserAgent(host, stream, incrementalOutput)) ==>
              r == Failure(InvalidHeader(UserAgentHeader))
    ensures r.Success? ==>
              r.value.Keys == {Accept, Authorization, ContentType, UserAgentHeader} + (if stream then {Sse} else {})
    ensures r.Success? ==> r.value[Accept] == if stream then "text/event-stream" else "application/json"
    ensures r.Success? && stream ==> r.value[Sse] == "enable"
    ensures r.Success? ==> r.value[Authorization] == Bearer(apiKey)
    ensures r.Success? ==> r.value[ContentType] == "application/json"
    ensures r.Success? ==> r.value[UserAgentHeader] == UserAgent(host, stream, incrementalOutput)
  {
    var headers: map<string, string> := map[];
    if stream {
      headers := headers[Accept := "text/event-stream"];
      headers := headers[Sse := "enable"];
    } else {
      headers := headers[Accept := "application/json"];
    }
    var auth := Bearer(apiKey);
    if !ValidHeaderValue(auth) {
      return Failure(InvalidHeader(Authorization));
    }
    headers := headers[Authorization := auth];
    headers := headers[ContentType := "application/json"];
    var ua := UserAgent(host, stream, incrementalOutput);
    if !ValidHeaderValue(ua) {
      return Failure(InvalidHeader(UserAgentHeader));
    }
    headers := headers[UserAgentHeader := ua];
    r := Success(headers);
  }

  /* ---------------------------------------------------------------------
     Body
     --------------------------------------------------------------------- */

  /** `Generation::build_request_json`: the model, the messages untouched
      under `input`, and the parameters, which are filled in only for an
      incremental stream. */
  function BuildRequestJson(model: string, messages: Json, stream: bool, incrementalOutput: bool): (body: Json)
    ensures body.JObj? && body.fields.Keys == {"model", "input", "parameters"}
    ensures GetStr(body, "model") == Some(model)
    ensures Get(body, "input").Some? && Get(Get(body, "input").value, "messages") == Some(messages)
    ensures Get(body, "parameters").Some? && Get(body, "parameters").value.JObj?
    ensures var p := Get(body, "parameters").value;
      (stream && incrementalOutput ==>
         p.fields.Keys == {"stream", "incremental_output"}
         && Get(p, "stream") == Some(JBool(true))
         && Get(p, "incremental_output") == Some(JBool(true)))
      && (!(stream && incrementalOutput) ==> p.fields == map[])
  {
    var parameters :=
      if stream && incrementalOutput then
        JObj(map["stream" := JBool(stream), "incremental_output" := JBool(incrementalOutput)])
      else JObj(map[]);
    JObj(map[
      "model" := JStr(model),
      "input" := JObj(map["messages" := messages]),
      "parameters" := parameters])
  }

  /** An HTTP POST as the client would send it. */
  datatype PostRequest = PostRequest(url: string, headers: map<string, string>, body: Json)

  /** `Generation::call` up to the network: the headers (which may fail),
      then the body, addressed to `url`. Sending it is not modelled. */
  method PrepareCall(model: string, apiKey: string, url: string, stream: bool, messages: Json,
                     incrementalOutput: bool, host: Host)
    returns (r: Result<PostRequest, GenerationError>)
    ensures r.Success? <==>
      ValidHeaderValue(apiKey) && ValidHeaderValue(UserAgent(host, stream, incrementalOutput))
    ensures !ValidHeaderValue(apiKey) ==> r == Failure(InvalidHeader(Authorization))
    ensures ValidHeaderValue(apiKey) && !ValidHeaderValue(UserAgent(host, stream, incrementalOutput)) ==>
              r == Failure(InvalidHeader(UserAgentHeader))
    ensures r.Success? ==> r.value.url == url
    ensures r.Success? ==> r.value.body == BuildRequestJson(model, messages, stream, incrementalOutput)
    ensures r.Success? ==>
              r.value.headers.Keys == {Accept, Authorization, ContentType, UserAgentHeader} + (if stream then {Sse} else {})
    ensures r.Success? ==> r.value.headers[Accept] == if stream then "text/event-stream" else "application/json"
    ensures r.Success? && stream ==> r.value.headers[Sse] == "enable"
    ensures r.Success? ==> r.value.headers[Authorization] == Bearer(apiKey)
    ensures r.Success? ==> r.value.headers[ContentType] == "application/json"
    ensures r.Success? ==> r.value.headers[UserAgentHeader] == UserAgent(host, stream, incrementalOutput)
  {
    var header := BuildRequestHeader(apiKey, stream, incrementalOutput, host);
    if header.Failure? {
      return Failure(header.error);
    }
    var body := BuildRequestJson(model, messages, stream, incrementalOutput);
    r := Success(PostRequest(url, header.value, body));
  }
}
