/** What the server computes from an exam: the configuration, the settings file and its key. */
module ExamBuild {
  import opened Strings
  import opened Seb
  import opened ExamSettings
  import opened Plist
  import opened FleetModel
  import Base64
  import UrlRule

  const MAX_ACCESS_CODE: nat := 64

  datatype SebBuild = SebBuild(settings: seq<Entry>, configKey: string, startUrl: string)

  function GateUrl(publicUrl: Option<string>, examId: string): Option<string> {
    match publicUrl
    case Some(base) => Some(base + "/gate/" + examId)
    case None => None
  }

  function BuildSeb(lib: Library, publicUrl: Option<string>, exam: Exam): Result<SebBuild, FleetError> {
    match Base64.Unhex(exam.sebSalt)
    case None => Err(CorruptSalt)
    case Some(salt) =>
      var opts := SebOptions(GateUrl(publicUrl, exam.id), salt, None);
      match Settings(lib, exam.spec, opts)
      case Err(e) => Err(BadSpec(e))
      case Ok(settings) => Ok(SebBuild(settings, ConfigKey(lib, settings),
                                       opts.startUrlOverride.UnwrapOr(exam.spec.startUrl)))
  }

  function BuildConfig(spec: ExamSpec): Result<SebConfig, FleetError> {
    match EffectiveDomains(spec)
    case Err(e) => Err(BadSpec(e))
    case Ok(domains) =>
      Ok(SebConfig(Trim(spec.startUrl),
                   seq(|domains|, i requires 0 <= i < |domains| => UrlRule.DomainRule(domains[i])), spec.allowQuit))
  }

  /** The exam attached to a start job. */
  function BuildPayload(lib: Library, publicUrl: Option<string>, exam: Exam): Result<Payload, FleetError> {
    match BuildConfig(exam.spec)
    case Err(e) => Err(e)
    case Ok(config) =>
      match BuildSeb(lib, publicUrl, exam)
      case Err(e) => Err(e)
      case Ok(build) => Ok(Payload(exam.id, exam.name, config, build.settings, build.configKey))
  }

  /** The specification as it is stored: trimmed, with normalised domains and a short access code. */
  function CleanSpec(spec: ExamSpec): Result<ExamSpec, FleetError> {
    match NormalizedAll(spec.allowedDomains)
    case Err(e) => Err(BadSpec(e))
    case Ok(domains) =>
      var clean := ExamSpec(Trim(spec.startUrl), domains, spec.allowQuit, Trim(spec.accessCode));
      if |clean.accessCode| > MAX_ACCESS_CODE || HasControl(clean.accessCode) then Err(BadAccessCode) else Ok(clean)
  }

  function ToolsOf(lib: Library): ExamTools {
    ExamTools(CleanSpec, (publicUrl, exam) => BuildPayload(lib, publicUrl, exam))
  }
}
