/**
 * Tech packs: the per-technology-center guidance files the analysis prompts
 * embed. A tech-center code selects one of nine files; every other code
 * falls back to the software pack. Reading the file is I/O and is a
 * parameter here.
 */
module TechPacks {
  import opened Wrappers
  import opened Json

  const DefaultPack := "TECH_SOFTWARE_TC2100.md"

  /** The fixed code-to-file table shared by the loader and the router. */
  const PackFiles: map<string, string> := map[
    "1600" := "TECH_BIOTECH_TC1600_OptionB.md",
    "1700" := "TECH_Chemistry_TC1700.md",
    "2100" := "TECH_SOFTWARE_TC2100.md",
    "2400" := "TECH_NETWORKING_TC2400.md",
    "2600" := "TECH_COMMUNICATIONS_TC2600.md",
    "2800" := "TECH_SEMICONDUCTORS_TC2800.md",
    "2900" := "TECH_DESIGNS_TC2900.md",
    "3600" := "TECH_ECOM_BUSINESS_TC3600.md",
    "3700" := "TECH_MECH_MED_TC3700.md"
  ]

  /** Why a tech-pack file could not be read. */
  datatype ReadError = FileMissing | ReadFailed(message: string)

  /** Reading a tech-pack file by name (the file system). */
  type PackReader = string -> Result<string, ReadError>

  /** The two ways `load_tech_pack` can fail: `FileNotFoundError`, or any other exception. */
  datatype LoadError = NotFound | Raised(message: string)

  /**
   * The file a code selects, `mapping.get(code)` with the software pack as
   * fallback. Looking up a list or dict raises `TypeError` (unhashable).
   */
  function PackFileFor(code: Json): (r: Result<string, string>)
    ensures r.Err? <==> code.JArr? || code.JObj?
    ensures r.Err? ==> r.error == "unhashable type: '" + TypeName(code) + "'"
    ensures r.Ok? ==> r.value in PackFiles.Values
    ensures code.JStr? && code.s in PackFiles ==> r == Ok(PackFiles[code.s])
    ensures r.Ok? && !(code.JStr? && code.s in PackFiles) ==> r == Ok(DefaultPack)
  {
    match code
    case JArr(_) => Err("unhashable type: 'list'")
    case JObj(_) => Err("unhashable type: 'dict'")
    case JStr(s) =>
      assert "2100" in PackFiles;
      if s in PackFiles then Ok(PackFiles[s]) else Ok(DefaultPack)
    case _ =>
      assert PackFiles["2100"] == DefaultPack;
      Ok(DefaultPack)
  }

  /**
   * `load_tech_pack`: the text of the selected file. A missing file is
   * `NotFound`; an unhashable code or a failed read is `Raised`.
   */
  function LoadTechPack(code: Json, read: PackReader): (r: Result<string, LoadError>)
    ensures PackFileFor(code).Err? ==> r == Err(Raised(PackFileFor(code).error))
    ensures PackFileFor(code).Ok? ==>
      match read(PackFileFor(code).value)
      case Ok(text) => r == Ok(text)
      case Err(FileMissing) => r == Err(NotFound)
      case Err(ReadFailed(m)) => r == Err(Raised(m))
  {
    match PackFileFor(code)
    case Err(e) => Err(Raised(e))
    case Ok(file) =>
      match read(file)
      case Ok(text) => Ok(text)
      case Err(FileMissing) => Err(NotFound)
      case Err(ReadFailed(m)) => Err(Raised(m))
  }
}
