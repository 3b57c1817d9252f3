/** The closed tag sets of the output schema. Each tag set is a datatype;
    `Tag` gives the string the JSON carries and the parse functions are the
    string-membership checks the schema validator performs. */
module Enums {
  import opened Wrappers

  datatype ProcessingStatus = Success | Partial | Failed {
    function Tag(): string {
      match this
      case Success => "success"
      case Partial => "partial"
      case Failed => "failed"
    }
  }

  datatype FrameGeometry = Rectangular | Round | Oval | Aviator | CatEye | Geometric | Irregular | Unknown {
    function Tag(): string {
      match this
      case Rectangular => "rectangular"
      case Round => "round"
      case Oval => "oval"
      case Aviator => "aviator"
      case CatEye => "cat-eye"
      case Geometric => "geometric"
      case Irregular => "irregular"
      case Unknown => "unknown"
    }
  }

  datatype Transparency = Opaque | SemiTransparent | Transparent | Mixed {
    function Tag(): string {
      match this
      case Opaque => "opaque"
      case SemiTransparent => "semi-transparent"
      case Transparent => "transparent"
      case Mixed => "mixed"
    }
  }

  datatype SurfaceTexture = Smooth | Matte | Glossy | Textured | Patterned | Metallic {
    function Tag(): string {
      match this
      case Smooth => "smooth"
      case Matte => "matte"
      case Glossy => "glossy"
      case Textured => "textured"
      case Patterned => "patterned"
      case Metallic => "metallic"
    }
  }

  datatype FrameMaterialApparent = Metal | Plastic | Acetate | Titanium | Wood | Mixed | Indeterminate {
    function Tag(): string {
      match this
      case Metal => "metal"
      case Plastic => "plastic"
      case Acetate => "acetate"
      case Titanium => "titanium"
      case Wood => "wood"
      case Mixed => "mixed"
      case Indeterminate => "indeterminate"
    }
  }

  datatype LensTint = Clear | Tinted | Gradient | Mirrored | Photochromic | Gray | Brown | Green | Blue | Indeterminate {
    function Tag(): string {
      match this
      case Clear => "clear"
      case Tinted => "tinted"
      case Gradient => "gradient"
      case Mirrored => "mirrored"
      case Photochromic => "photochromic"
      case Gray => "gray"
      case Brown => "brown"
      case Green => "green"
      case Blue => "blue"
      case Indeterminate => "indeterminate"
    }
  }

  datatype TempleStyle = Standard | SpringHinge | Cable | Skull | Indeterminate {
    function Tag(): string {
      match this
      case Standard => "standard"
      case SpringHinge => "spring-hinge"
      case Cable => "cable"
      case Skull => "skull"
      case Indeterminate => "indeterminate"
    }
  }

  /** The string-to-member check of `ProcessingStatus(s)`: exactly the three tags are accepted. */
  function ParseProcessingStatus(s: string): (r: Option<ProcessingStatus>)
    ensures r.Some? ==> r.value.Tag() == s
    ensures forall e: ProcessingStatus :: e.Tag() == s ==> r == Some(e)
    ensures r.Some? <==> s in {"success", "partial", "failed"}
  {
    match s
    case "success" => Some(ProcessingStatus.Success)
    case "partial" => Some(ProcessingStatus.Partial)
    case "failed" => Some(ProcessingStatus.Failed)
    case _ => None
  }

  function ParseFrameGeometry(s: string): (r: Option<FrameGeometry>)
    ensures r.Some? ==> r.value.Tag() == s
    ensures forall e: FrameGeometry :: e.Tag() == s ==> r == Some(e)
  {
    match s
    case "rectangular" => Some(Rectangular)
    case "round" => Some(Round)
    case "oval" => Some(Oval)
    case "aviator" => Some(Aviator)
    case "cat-eye" => Some(CatEye)
    case "geometric" => Some(Geometric)
    case "irregular" => Some(Irregular)
    case "unknown" => Some(Unknown)
    case _ => None
  }

  function ParseTransparency(s: string): (r: Option<Transparency>)
    ensures r.Some? ==> r.value.Tag() == s
    ensures forall e: Transparency :: e.Tag() == s ==> r == Some(e)
  {
    match s
    case "opaque" => Some(Opaque)
    case "semi-transparent" => Some(SemiTransparent)
    case "transparent" => Some(Transparent)
    case "mixed" => Some(Transparency.Mixed)
    case _ => None
  }

  function ParseSurfaceTexture(s: string): (r: Option<SurfaceTexture>)
    ensures r.Some? ==> r.value.Tag() == s
    ensures forall e: SurfaceTexture :: e.Tag() == s ==> r == Some(e)
  {
    match s
    case "smooth" => Some(Smooth)
    case "matte" => Some(Matte)
    case "glossy" => Some(Glossy)
    case "textured" => Some(Textured)
    case "patterned" => Some(Patterned)
    case "metallic" => Some(Metallic)
    case _ => None
  }

  function ParseFrameMaterialApparent(s: string): (r: Option<FrameMaterialApparent>)
    ensures r.Some? ==> r.value.Tag() == s
    ensures forall e: FrameMaterialApparent :: e.Tag() == s ==> r == Some(e)
  {
    match s
    case "metal" => Some(Metal)
    case "plastic" => Some(Plastic)
    case "acetate" => Some(Acetate)
    case "titanium" => Some(Titanium)
    case "wood" => Some(Wood)
    case "mixed" => Some(FrameMaterialApparent.Mixed)
    case "indeterminate" => Some(FrameMaterialApparent.Indeterminate)
    case _ => None
  }

  function ParseLensTint(s: string): (r: Option<LensTint>)
    ensures r.Some? ==> r.value.Tag() == s
    ensures forall e: LensTint :: e.Tag() == s ==> r == Some(e)
  {
    match s
    case "clear" => Some(Clear)
    case "tinted" => Some(Tinted)
    case "gradient" => Some(Gradient)
    case "mirrored" => Some(Mirrored)
    case "photochromic" => Some(Photochromic)
    case "gray" => Some(Gray)
    case "brown" => Some(Brown)
    case "green" => Some(Green)
    case "blue" => Some(Blue)
    case "indeterminate" => Some(LensTint.Indeterminate)
    case _ => None
  }

  function ParseTempleStyle(s: string): (r: Option<TempleStyle>)
    ensures r.Some? ==> r.value.Tag() == s
    ensures forall e: TempleStyle :: e.Tag() == s ==> r == Some(e)
  {
    match s
    case "standard" => Some(Standard)
    case "spring-hinge" => Some(SpringHinge)
    case "cable" => Some(Cable)
    case "skull" => Some(Skull)
    case "indeterminate" => Some(TempleStyle.Indeterminate)
    case _ => None
  }

  /** Every member of each tag set, in declaration order. */
  const AllFrameGeometries: seq<FrameGeometry> := [Rectangular, Round, Oval, Aviator, CatEye, Geometric, Irregular, Unknown]
  const AllTransparencies: seq<Transparency> := [Opaque, SemiTransparent, Transparent, Transparency.Mixed]
  const AllSurfaceTextures: seq<SurfaceTexture> := [Smooth, Matte, Glossy, Textured, Patterned, Metallic]

  /** FrameGeometry has exactly eight distinct tags, among them "unknown" and the hyphenated "cat-eye". */
  lemma FrameGeometryTags()
    ensures forall e: FrameGeometry :: e in AllFrameGeometries
    ensures forall i, j :: 0 <= i < j < |AllFrameGeometries| ==> AllFrameGeometries[i].Tag() != AllFrameGeometries[j].Tag()
    ensures |AllFrameGeometries| == 8
    ensures ParseFrameGeometry("unknown") == Some(Unknown) && ParseFrameGeometry("cat-eye") == Some(CatEye)
    ensures ParseFrameGeometry("cat_eye") == None && ParseFrameGeometry("square") == None
  {
    forall e: FrameGeometry ensures e in AllFrameGeometries {
      match e
      case Rectangular => assert AllFrameGeometries[0] == e;
      case Round => assert AllFrameGeometries[1] == e;
      case Oval => assert AllFrameGeometries[2] == e;
      case Aviator => assert AllFrameGeometries[3] == e;
      case CatEye => assert AllFrameGeometries[4] == e;
      case Geometric => assert AllFrameGeometries[5] == e;
      case Irregular => assert AllFrameGeometries[6] == e;
      case Unknown => assert AllFrameGeometries[7] == e;
    }
  }

  /** Transparency has four tags and none of them is "unknown"; its sentinel default "opaque" is one of them. */
  lemma TransparencyTags()
    ensures forall e: Transparency :: e in AllTransparencies
    ensures |AllTransparencies| == 4
    ensures ParseTransparency("unknown") == None
    ensures ParseTransparency("opaque") == Some(Opaque)
  {
    forall e: Transparency ensures e in AllTransparencies {
      match e
      case Opaque => assert AllTransparencies[0] == e;
      case SemiTransparent => assert AllTransparencies[1] == e;
      case Transparent => assert AllTransparencies[2] == e;
      case Mixed => assert AllTransparencies[3] == e;
    }
  }

  /** SurfaceTexture has six tags; its sentinel default "smooth" is one of them. */
  lemma SurfaceTextureTags()
    ensures forall e: SurfaceTexture :: e in AllSurfaceTextures
    ensures |AllSurfaceTextures| == 6
    ensures ParseSurfaceTexture("smooth") == Some(Smooth)
    ensures ParseSurfaceTexture("unknown") == None
  {
    forall e: SurfaceTexture ensures e in AllSurfaceTextures {
      match e
      case Smooth => assert AllSurfaceTextures[0] == e;
      case Matte => assert AllSurfaceTextures[1] == e;
      case Glossy => assert AllSurfaceTextures[2] == e;
      case Textured => assert AllSurfaceTextures[3] == e;
      case Patterned => assert AllSurfaceTextures[4] == e;
      case Metallic => assert AllSurfaceTextures[5] == e;
    }
  }

  /** The three metadata tag sets each contain the sentinel "indeterminate". */
  lemma IndeterminateIsMember()
    ensures ParseFrameMaterialApparent("indeterminate") == Some(FrameMaterialApparent.Indeterminate)
    ensures ParseLensTint("indeterminate") == Some(LensTint.Indeterminate)
    ensures ParseTempleStyle("indeterminate") == Some(TempleStyle.Indeterminate)
    ensures ParseFrameMaterialApparent("unknown") == None && ParseLensTint("unknown") == None
    ensures ParseTempleStyle("unknown") == None
  {
  }
}
