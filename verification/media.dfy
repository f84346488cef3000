/** File-extension enums (enums/Image.java, enums/Img.java, enums/Audio.java,
    enums/Video.java): each constant holds a dotted lower-case extension, and `has` tests a
    string against every constant with `equalsIgnoreCase`. */
module Media {
  import opened Wrappers
  import opened Text

  /** The image extensions of enums/Image.java. */
  datatype Image = JPG | BMP | GIF | PNG
  {
    /** `getValue()`. */
    function Value(): (r: string)
      ensures |r| == 4 && r[0] == '.'
    {
      match this
      case JPG => ".jpg"
      case BMP => ".bmp"
      case GIF => ".gif"
      case PNG => ".png"
    }

    /** `has(extension)`: the `if`/`else if` chain over the four constants. */
    static function Has(extension: Option<string>): (r: bool)
      ensures r <==> exists v: Image :: EqualsIgnoreCase(v.Value(), extension)
      ensures r ==> extension.Some? && |extension.value| == 4 && extension.value[0] == '.'
    {
      if EqualsIgnoreCase(Image.JPG.Value(), extension) then true
      else if EqualsIgnoreCase(Image.BMP.Value(), extension) then true
      else if EqualsIgnoreCase(Image.GIF.Value(), extension) then true
      else if EqualsIgnoreCase(Image.PNG.Value(), extension) then true
      else false
    }
  }

  /** The image extensions of enums/Img.java, a copy of `Image`. */
  datatype Img = JPG | BMP | GIF | PNG
  {
    /** `getValue()`. */
    function Value(): (r: string)
      ensures |r| == 4 && r[0] == '.'
    {
      match this
      case JPG => ".jpg"
      case BMP => ".bmp"
      case GIF => ".gif"
      case PNG => ".png"
    }

    /** `has(extension)`. */
    static function Has(extension: Option<string>): (r: bool)
      ensures r <==> exists v: Img :: EqualsIgnoreCase(v.Value(), extension)
      ensures r ==> extension.Some? && |extension.value| == 4 && extension.value[0] == '.'
    {
      if EqualsIgnoreCase(Img.JPG.Value(), extension) then true
      else if EqualsIgnoreCase(Img.BMP.Value(), extension) then true
      else if EqualsIgnoreCase(Img.GIF.Value(), extension) then true
      else if EqualsIgnoreCase(Img.PNG.Value(), extension) then true
      else false
    }
  }

  /** enums/Audio.java. */
  datatype Audio = MP3
  {
    /** `getValue()`. */
    function Value(): (r: string)
      ensures |r| == 4 && r[0] == '.'
    {
      ".mp3"
    }

    /** `has(extension)`. */
    static function Has(extension: Option<string>): (r: bool)
      ensures r <==> EqualsIgnoreCase(".mp3", extension)
      ensures r ==> extension.Some? && |extension.value| == 4 && extension.value[0] == '.'
    {
      EqualsIgnoreCase(MP3.Value(), extension)
    }
  }

  /** enums/Video.java. */
  datatype Video = MP4
  {
    /** `getValue()`. */
    function Value(): (r: string)
      ensures |r| == 4 && r[0] == '.'
    {
      ".mp4"
    }

    /** `has(extension)`. */
    static function Has(extension: Option<string>): (r: bool)
      ensures r <==> EqualsIgnoreCase(".mp4", extension)
      ensures r ==> extension.Some? && |extension.value| == 4 && extension.value[0] == '.'
    {
      EqualsIgnoreCase(MP4.Value(), extension)
    }
  }

  /** `Image` and `Img` accept the same strings. */
  lemma ImageImgAgree(extension: Option<string>)
    ensures Image.Has(extension) <==> Img.Has(extension)
  {
  }

  /** Every constant is recognised in its own spelling and upper-cased. */
  lemma HasOwnValues(v: Image, w: Img)
    ensures Image.Has(Some(v.Value())) && Image.Has(Some(AsciiUpper(v.Value())))
    ensures Img.Has(Some(w.Value())) && Img.Has(Some(AsciiUpper(w.Value())))
    ensures Audio.Has(Some(AsciiUpper(MP3.Value()))) && Video.Has(Some(AsciiUpper(MP4.Value())))
  {
    EqualsIgnoreCaseUpper(v.Value(), v.Value());
    EqualsIgnoreCaseUpper(w.Value(), w.Value());
    EqualsIgnoreCaseUpper(MP3.Value(), MP3.Value());
    EqualsIgnoreCaseUpper(MP4.Value(), MP4.Value());
  }

  /** Mixed-case spellings are recognised. */
  lemma HasMixedCase()
    ensures Image.Has(Some(".JPG")) && Img.Has(Some(".Png")) && Audio.Has(Some(".MP3")) && Video.Has(Some(".mP4"))
  {
    assert EqualsIgnoreCase(Image.JPG.Value(), Some(".JPG"));
    assert EqualsIgnoreCase(Img.PNG.Value(), Some(".Png"));
  }

  /** Null and the undotted spellings are not recognised. */
  lemma HasRejects()
    ensures !Image.Has(None) && !Img.Has(None) && !Audio.Has(None) && !Video.Has(None)
    ensures !Image.Has(Some("jpg")) && !Img.Has(Some("png")) && !Audio.Has(Some("mp3")) && !Video.Has(Some("mp4"))
  {
  }

  /** `has` ignores ASCII letter case: upper-casing the argument never changes the answer. */
  lemma HasIgnoresCase(s: string)
    ensures Image.Has(Some(s)) <==> Image.Has(Some(AsciiUpper(s)))
    ensures Img.Has(Some(s)) <==> Img.Has(Some(AsciiUpper(s)))
    ensures Audio.Has(Some(s)) <==> Audio.Has(Some(AsciiUpper(s)))
    ensures Video.Has(Some(s)) <==> Video.Has(Some(AsciiUpper(s)))
  {
    forall v: Image {
      EqualsIgnoreCaseUpper(v.Value(), s);
    }
    forall v: Img {
      EqualsIgnoreCaseUpper(v.Value(), s);
    }
    EqualsIgnoreCaseUpper(".mp3", s);
    EqualsIgnoreCaseUpper(".mp4", s);
  }
}
