/**
 * `tech_pack_router_node`: picks the USPTO technology center from the
 * Stage 1 metadata (explicit code, else derived from the art unit, else
 * "2100") and loads the matching tech pack.
 */
module TechPackRouterNode {
  import opened Wrappers
  import opened Json
  import opened PyStr
  import opened TechPacks
  import opened PipelineState

  const Prefix := "Tech Pack Router failed: "
  const DefaultCenter := "2100"
  const PlaceholderPack := "# Tech Pack Not Available\n\nNo specific tech pack guidance available."
  const PlaceholderName := "default"

  /**
   * `art_unit[:2] + "00"` on a truthy art unit: a string keeps its first two
   * characters; other types raise the `TypeError` Python raises for them.
   */
  function CenterFromArtUnit(artUnit: Json): (r: Result<Json, string>)
    ensures artUnit.JStr? <==> r.Ok?
    ensures artUnit.JStr? && |artUnit.s| >= 2 ==> r == Ok(JStr(artUnit.s[..2] + "00"))
    ensures artUnit.JStr? && |artUnit.s| < 2 ==> r == Ok(JStr(artUnit.s + "00"))
  {
    match artUnit
    case JStr(a) =>
      assert |a| < 2 ==> Slice(a, 0, 2) == a by {
        if |a| == 1 { assert SliceIndex(2, |a|) == 1; assert a[0..1] == a; }
      }
      Ok(JStr(Slice(a, 0, 2) + "00"))
    case JArr(_) => Err("can only concatenate list (not \"str\") to list")
    case JObj(_) => Err("unhashable type: 'slice'")
    case _ => Err("'" + TypeName(artUnit) + "' object is not subscriptable")
  }

  /** `extraction.get("metadata", {})`. */
  function Metadata(extraction: Record): Json
  {
    GetOr(extraction, "metadata", EmptyObj)
  }

  /**
   * The technology center for a Stage 1 record: a truthy `tech_center` as
   * it is, else the code derived from a truthy `art_unit`, else "2100".
   * Metadata that is not an object raises on `.get`.
   */
  function TechCenter(extraction: Record): (r: Result<Json, string>)
    ensures !Metadata(extraction).JObj? ==> r == Err(AttrError(Metadata(extraction), "get"))
    ensures r.Ok? ==> Truthy(r.value)
    ensures Metadata(extraction).JObj? ==>
      var explicit := GetOr(Metadata(extraction).fields, "tech_center", JNull);
      var artUnit := GetOr(Metadata(extraction).fields, "art_unit", JStr(""));
      (Truthy(explicit) ==> r == Ok(explicit))
      && (!Truthy(explicit) && Truthy(artUnit) ==> r == CenterFromArtUnit(artUnit))
      && (!Truthy(explicit) && !Truthy(artUnit) ==> r == Ok(JStr(DefaultCenter)))
  {
    var metadata := Metadata(extraction);
    if !metadata.JObj? then Err(AttrError(metadata, "get"))
    else
      var explicit := GetOr(metadata.fields, "tech_center", JNull);
      var artUnit := GetOr(metadata.fields, "art_unit", JStr(""));
      var derived := if !Truthy(explicit) && Truthy(artUnit) then CenterFromArtUnit(artUnit) else Ok(explicit);
      match derived
      case Err(e) => Err(e)
      case Ok(code) => if Truthy(code) then Ok(code) else Ok(JStr(DefaultCenter))
  }

  /** The tech center for the state's Stage 1 record, or the exception raised while deriving it. */
  function RoutedCenter(s: State): Result<Json, string>
  {
    match Required(s.stage1Extraction, "stage1_extraction")
    case Err(e) => Err(e)
    case Ok(extraction) => TechCenter(extraction)
  }

  /**
   * The node: skipped after a failure; otherwise the tech center is
   * recorded and its pack loaded. A missing pack file falls back to the
   * placeholder pack without failing the run; any other exception fails it.
   */
  function TechPackRouter(svc: Services, s: State): (r: State)
    ensures IsFailed(s) ==> r == s
    ensures r == s.(techCenter := r.techCenter, techPackContent := r.techPackContent,
                    techPackName := r.techPackName, status := r.status, error := r.error)
    ensures !IsFailed(s) && RoutedCenter(s).Err? ==> r == Fail(s, Prefix, RoutedCenter(s).error)
    ensures !IsFailed(s) && RoutedCenter(s).Ok? ==>
      var code := RoutedCenter(s).value;
      r.techCenter == Some(code)
      && match LoadTechPack(code, svc.readPack)
         case Ok(text) =>
           r.techPackContent == Some(text) && r.techPackName == Some(PackFileFor(code).value)
           && r.status == s.status && r.error == s.error
         case Err(NotFound) =>
           r.techPackContent == Some(PlaceholderPack) && r.techPackName == Some(PlaceholderName)
           && r.status == s.status && r.error == s.error
         case Err(Raised(m)) =>
           IsFailed(r) && r.error == Some(Prefix + m)
           && r.techPackContent == s.techPackContent && r.techPackName == s.techPackName
  {
    if IsFailed(s) then s
    else
      match RoutedCenter(s)
      case Err(e) => Fail(s, Prefix, e)
      case Ok(code) =>
        var s1 := s.(techCenter := Some(code));
        match LoadTechPack(code, svc.readPack)
        case Ok(text) => s1.(techPackContent := Some(text), techPackName := Some(PackFileFor(code).value))
        case Err(NotFound) => s1.(techPackContent := Some(PlaceholderPack), techPackName := Some(PlaceholderName))
        case Err(Raised(m)) => Fail(s1, Prefix, m)
  }
}
