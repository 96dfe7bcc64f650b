/**
 * Format classification and the text-extraction shells of `binaryProcessor.py`.
 *
 * The libraries that do the real work (the PDF reader, optical character
 * recognition, the media transcoder) are outside the model: what they return,
 * or whether they raise, is passed in. What is modelled is the control flow
 * around them: which result is returned on which path, and which temporary
 * files exist afterwards.
 */
module BinaryProcessor {
  import opened Wrappers
  import opened Text
  import opened Files

  /** The families `FormatSupport.verificar_formato` names: "pdf", "imagem", "audio", "video". */
  datatype Formato = Pdf | Imagem | Audio | Video

  const PdfExtension: string := ".pdf"
  const ImageExtensions: seq<string> := [".png", ".jpg", ".jpeg"]
  const AudioExtensions: seq<string> := [".mp3", ".ogg", ".wav"]
  const VideoExtensions: seq<string> := [".mp4", ".webm", ".avi"]

  // ---------------------------------------------------------------------
  // Format classification
  // ---------------------------------------------------------------------

  /** `any(caminho.endswith(ext) for ext in exts)`. */
  function EndsWithAny(caminho: string, exts: seq<string>): (b: bool)
    ensures b <==> exists ext :: ext in exts && EndsWith(caminho, ext)
  {
    if exts == [] then false
    else EndsWith(caminho, exts[0]) || EndsWithAny(caminho, exts[1..])
  }

  /** `ImageProcessor.suporta_formatos`: case-sensitive `.png`, `.jpg` or `.jpeg` suffix. */
  function SuportaImagem(caminho: string): (b: bool)
    ensures b <==> EndsWith(caminho, ".png") || EndsWith(caminho, ".jpg") || EndsWith(caminho, ".jpeg")
  {
    EndsWithAny(caminho, ImageExtensions)
  }

  /** `AudioProcessor.suporta_formatos`: case-sensitive `.mp3`, `.ogg` or `.wav` suffix. */
  function SuportaAudio(caminho: string): (b: bool)
    ensures b <==> EndsWith(caminho, ".mp3") || EndsWith(caminho, ".ogg") || EndsWith(caminho, ".wav")
  {
    EndsWithAny(caminho, AudioExtensions)
  }

  /** `VideoProcessor.suporta_formatos`: case-sensitive `.mp4`, `.webm` or `.avi` suffix. */
  function SuportaVideo(caminho: string): (b: bool)
    ensures b <==> EndsWith(caminho, ".mp4") || EndsWith(caminho, ".webm") || EndsWith(caminho, ".avi")
  {
    EndsWithAny(caminho, VideoExtensions)
  }

  /** The last two characters of a path that ends with an extension are those of the extension. */
  lemma LastTwo(caminho: string, ext: string)
    requires EndsWith(caminho, ext) && |ext| >= 2
    ensures caminho[|caminho| - 1] == ext[|ext| - 1]
    ensures caminho[|caminho| - 2] == ext[|ext| - 2]
  {
    EndsWithCharAt(caminho, ext, 0);
    EndsWithCharAt(caminho, ext, 1);
  }

  /** The characters that end a path carrying each supported extension. */
  lemma ExtensionTails(caminho: string)
    ensures EndsWith(caminho, ".pdf") ==> caminho[|caminho| - 1] == 'f'
    ensures EndsWith(caminho, ".png") ==> caminho[|caminho| - 1] == 'g' && caminho[|caminho| - 2] == 'n'
    ensures EndsWith(caminho, ".jpg") ==> caminho[|caminho| - 1] == 'g' && caminho[|caminho| - 2] == 'p'
    ensures EndsWith(caminho, ".jpeg") ==> caminho[|caminho| - 1] == 'g' && caminho[|caminho| - 2] == 'e'
    ensures EndsWith(caminho, ".mp3") ==> caminho[|caminho| - 1] == '3'
    ensures EndsWith(caminho, ".ogg") ==> caminho[|caminho| - 1] == 'g' && caminho[|caminho| - 2] == 'g'
    ensures EndsWith(caminho, ".wav") ==> caminho[|caminho| - 1] == 'v'
    ensures EndsWith(caminho, ".mp4") ==> caminho[|caminho| - 1] == '4'
    ensures EndsWith(caminho, ".webm") ==> caminho[|caminho| - 1] == 'm'
    ensures EndsWith(caminho, ".avi") ==> caminho[|caminho| - 1] == 'i'
  {
    if EndsWith(caminho, ".pdf") { LastTwo(caminho, ".pdf"); }
    if EndsWith(caminho, ".png") { LastTwo(caminho, ".png"); }
    if EndsWith(caminho, ".jpg") { LastTwo(caminho, ".jpg"); }
    if EndsWith(caminho, ".jpeg") { LastTwo(caminho, ".jpeg"); }
    if EndsWith(caminho, ".mp3") { LastTwo(caminho, ".mp3"); }
    if EndsWith(caminho, ".ogg") { LastTwo(caminho, ".ogg"); }
    if EndsWith(caminho, ".wav") { LastTwo(caminho, ".wav"); }
    if EndsWith(caminho, ".mp4") { LastTwo(caminho, ".mp4"); }
    if EndsWith(caminho, ".webm") { LastTwo(caminho, ".webm"); }
    if EndsWith(caminho, ".avi") { LastTwo(caminho, ".avi"); }
  }

  /** The four suffix families are mutually exclusive: no path matches two of them. */
  lemma FamiliesDisjoint(caminho: string)
    ensures EndsWith(caminho, PdfExtension) ==>
              !SuportaImagem(caminho) && !SuportaAudio(caminho) && !SuportaVideo(caminho)
    ensures SuportaImagem(caminho) ==> !SuportaAudio(caminho) && !SuportaVideo(caminho)
    ensures SuportaAudio(caminho) ==> !SuportaVideo(caminho)
  {
    ExtensionTails(caminho);
  }

  /**
   * `FormatSupport.verificar_formato`: the first family, in the order
   * pdf, image, audio, video, whose suffixes the path ends with; `None` for
   * any other path. Because the families are disjoint, each answer holds
   * exactly when its own suffix test holds.
   */
  function VerificarFormato(caminho: string): (r: Option<Formato>)
    ensures r == Some(Pdf) <==> EndsWith(caminho, ".pdf")
    ensures r == Some(Imagem) <==> SuportaImagem(caminho)
    ensures r == Some(Audio) <==> SuportaAudio(caminho)
    ensures r == Some(Video) <==> SuportaVideo(caminho)
    ensures r == None <==>
              !EndsWith(caminho, ".pdf") && !SuportaImagem(caminho) && !SuportaAudio(caminho) && !SuportaVideo(caminho)
  {
    FamiliesDisjoint(caminho);
    if EndsWith(caminho, PdfExtension) then Some(Pdf)
    else if SuportaImagem(caminho) then Some(Imagem)
    else if SuportaAudio(caminho) then Some(Audio)
    else if SuportaVideo(caminho) then Some(Video)
    else None
  }

  /**
   * A path whose last character ends none of the supported extensions is
   * unsupported. In particular matching is case-sensitive: `x.PDF`,
   * `x.JPG`, `x.WAV` and `x.AVI` are all unsupported.
   */
  lemma UnsupportedByLastChar(caminho: string)
    requires |caminho| >= 1 && caminho[|caminho| - 1] !in "fg3v4mi"
    ensures VerificarFormato(caminho) == None
  {
    ExtensionTails(caminho);
  }

  /** Matching is case-sensitive: upper-case extensions are unsupported. */
  lemma UpperCaseUnsupported(caminho: string)
    requires || EndsWith(caminho, ".PDF") || EndsWith(caminho, ".JPG")
             || EndsWith(caminho, ".WAV") || EndsWith(caminho, ".AVI")
    ensures VerificarFormato(caminho) == None
  {
    if EndsWith(caminho, ".PDF") {
      EndsWithCharAt(caminho, ".PDF", 0);
    } else if EndsWith(caminho, ".JPG") {
      EndsWithCharAt(caminho, ".JPG", 0);
    } else if EndsWith(caminho, ".WAV") {
      EndsWithCharAt(caminho, ".WAV", 0);
    } else {
      EndsWithCharAt(caminho, ".AVI", 0);
    }
    UnsupportedByLastChar(caminho);
  }

  // ---------------------------------------------------------------------
  // PDF
  // ---------------------------------------------------------------------

  /**
   * The pages' text layers read one after another and concatenated; `None`
   * when some page fails to read.
   */
  function PageTexts(pages: seq<Option<string>>): (r: Option<string>)
    ensures r.Some? <==> forall i :: 0 <= i < |pages| ==> pages[i].Some?
    decreases |pages|
  {
    if pages == [] then Some("")
    else match PageTexts(pages[..|pages| - 1])
      case None => None
      case Some(t) =>
        match pages[|pages| - 1]
        case None => None
        case Some(page) => Some(t + page)
  }

  /** The text of a document is the text of its first `k` pages followed by the text of the rest: page order is kept. */
  lemma {:induction false} PageTextsSplit(pages: seq<Option<string>>, k: nat)
    requires k <= |pages|
    requires PageTexts(pages).Some?
    ensures PageTexts(pages[..k]).Some? && PageTexts(pages[k..]).Some?
    ensures PageTexts(pages).value == PageTexts(pages[..k]).value + PageTexts(pages[k..]).value
    decreases |pages|
  {
    if k == |pages| {
      assert pages[..k] == pages;
      assert pages[k..] == [];
    } else {
      var n := |pages|;
      var init := pages[..n - 1];
      PageTextsSplit(init, k);
      assert init[..k] == pages[..k];
      assert init[k..] == pages[k..][..n - 1 - k];
      assert pages[k..][n - 1 - k] == pages[n - 1];
    }
  }

  /**
   * What `PDFProcessor.processar_pdf` returns: `""` when the document cannot
   * be opened or a page cannot be read; otherwise the concatenated text
   * layer, replaced by the optical-recognition result `ocr` when it is blank.
   */
  function PdfText(doc: Option<seq<Option<string>>>, ocr: string): string {
    match doc
    case None => ""
    case Some(pages) =>
      match PageTexts(pages)
      case None => ""
      case Some(texto) => if IsBlank(texto) then ocr else texto
  }

  /** Optical recognition is used only when the text layer is blank. */
  lemma OcrOnlyWhenBlank(pages: seq<Option<string>>, ocr: string)
    requires PageTexts(pages).Some?
    ensures !IsBlank(PageTexts(pages).value) ==> PdfText(Some(pages), ocr) == PageTexts(pages).value
    ensures PdfText(Some(pages), ocr) != PageTexts(pages).value ==> PdfText(Some(pages), ocr) == ocr
  {
  }

  /**
   * `PDFProcessor.processar_pdf`. `doc` is what the PDF library yields
   * (`None` when the file cannot be opened; a `None` page when reading that
   * page raises); `ocr` is the result of the optical-recognition fallback.
   */
  method ProcessarPdf(fs: FileSystem, caminho: string, doc: Option<seq<Option<string>>>, ocr: string)
    returns (texto: string)
    requires fs.Valid()
    modifies fs
    ensures fs.Valid() && fs.existing == old(fs.existing) - {caminho}
    ensures texto == PdfText(doc, ocr)
  {
    texto := "";
    var failed := doc.None?;
    if !failed {
      var pages := doc.value;
      var i := 0;
      while i < |pages|
        invariant 0 <= i <= |pages|
        invariant PageTexts(pages[..i]) == Some(texto)
      {
        if pages[i].None? {
          failed := true;
          break;
        }
        assert pages[..i + 1][..i] == pages[..i];
        texto := texto + pages[i].value;
        i := i + 1;
      }
      assert !failed ==> pages[..i] == pages;
    }
    if failed {
      texto := "";
    } else if IsBlank(texto) {
      texto := ocr;
    }
    var present := fs.Exists(caminho);
    if present {
      fs.Remove(caminho);
    }
  }

  // ---------------------------------------------------------------------
  // Image and audio
  // ---------------------------------------------------------------------

  /**
   * `ImageProcessor.processar_imagem`: the recognised text, or `""` when
   * recognition raises (`ocr == None`); the input file is removed either way.
   */
  method ProcessarImagem(fs: FileSystem, caminho: string, ocr: Option<string>) returns (texto: string)
    requires fs.Valid()
    modifies fs
    ensures fs.Valid() && fs.existing == old(fs.existing) - {caminho}
    ensures ocr.Some? ==> texto == ocr.value
    ensures ocr.None? ==> texto == ""
  {
    match ocr {
      case Some(t) => texto := t;
      case None => texto := "";
    }
    var present := fs.Exists(caminho);
    if present {
      fs.Remove(caminho);
    }
  }

  /**
   * `AudioProcessor.processar_audio`: returns one fixed transcript,
   * `transcricao`, without reading the file, then removes the file if it
   * exists.
   */
  method ProcessarAudio(fs: FileSystem, caminho: string, transcricao: string) returns (texto: string)
    requires fs.Valid()
    modifies fs
    ensures fs.Valid() && fs.existing == old(fs.existing) - {caminho}
    ensures texto == transcricao
  {
    texto := transcricao;
    var present := fs.Exists(caminho);
    if present {
      fs.Remove(caminho);
    }
  }

  // ---------------------------------------------------------------------
  // Video
  // ---------------------------------------------------------------------

  /** The waveform path `_extrair_audio` derives from a video path. */
  function AudioPath(videoCaminho: string): string {
    videoCaminho + ".wav"
  }

  /** The derived path is a different, non-empty path that is itself classified as audio. */
  lemma AudioPathIsAudio(videoCaminho: string)
    ensures AudioPath(videoCaminho) != videoCaminho && AudioPath(videoCaminho) != ""
    ensures VerificarFormato(AudioPath(videoCaminho)) == Some(Audio)
  {
    EndsWithAppend(videoCaminho, ".wav");
    assert |AudioPath(videoCaminho)| == |videoCaminho| + 4;
  }

  /**
   * `VideoProcessor._extrair_audio`: on success the derived path, on failure
   * `""`. The transcoder writes the derived file when it succeeds, and may
   * leave a partial one behind when it fails (`leavesPartial`).
   */
  method ExtrairAudio(fs: FileSystem, videoCaminho: string, ffmpegOk: bool, leavesPartial: bool)
    returns (audioCaminho: string)
    requires fs.Valid()
    modifies fs
    ensures fs.Valid()
    ensures audioCaminho == if ffmpegOk then AudioPath(videoCaminho) else ""
    ensures fs.existing == if ffmpegOk || leavesPartial then old(fs.existing) + {AudioPath(videoCaminho)}
                           else old(fs.existing)
  {
    audioCaminho := AudioPath(videoCaminho);
    if ffmpegOk || leavesPartial {
      fs.Write(audioCaminho);
    }
    if !ffmpegOk {
      audioCaminho := "";
    }
  }

  /** The files that exist after `processar_video`. */
  function VideoFilesAfter(files: set<string>, caminho: string, ffmpegOk: bool, leavesPartial: bool): set<string> {
    var wav := AudioPath(caminho);
    var written := if ffmpegOk || leavesPartial then files + {wav} else files;
    if ffmpegOk then written - {wav} - {caminho} else written - {caminho}
  }

  /**
   * After `processar_video` the input is gone; the derived waveform is gone
   * when extraction succeeded, and a partial one left by a failed extraction
   * is never cleaned up.
   */
  lemma VideoCleanup(files: set<string>, caminho: string, ffmpegOk: bool, leavesPartial: bool)
    ensures caminho !in VideoFilesAfter(files, caminho, ffmpegOk, leavesPartial)
    ensures AudioPath(caminho) in VideoFilesAfter(files, caminho, ffmpegOk, leavesPartial) <==>
              !ffmpegOk && (leavesPartial || AudioPath(caminho) in files)
    ensures forall f :: f != caminho && f != AudioPath(caminho) ==>
              (f in VideoFilesAfter(files, caminho, ffmpegOk, leavesPartial) <==> f in files)
  {
    assert |AudioPath(caminho)| == |caminho| + 4;
  }

  /**
   * `VideoProcessor.processar_video`: extracts the waveform, hands the
   * returned path (`""` on failure) to the audio shell and returns its
   * transcript, which does not depend on whether extraction worked.
   */
  method ProcessarVideo(fs: FileSystem, caminho: string, transcricao: string, ffmpegOk: bool, leavesPartial: bool)
    returns (texto: string)
    requires fs.Valid()
    modifies fs
    ensures fs.Valid() && fs.existing == VideoFilesAfter(old(fs.existing), caminho, ffmpegOk, leavesPartial)
    ensures texto == transcricao
  {
    var audioCaminho := ExtrairAudio(fs, caminho, ffmpegOk, leavesPartial);
    texto := ProcessarAudio(fs, audioCaminho, transcricao);
    if audioCaminho != "" {
      var audioExists := fs.Exists(audioCaminho);
      if audioExists {
        // The audio shell has already removed the derived file, so this
        // cleanup of the waveform never finds it.
        assert false;
      }
    }
    var present := fs.Exists(caminho);
    if present {
      fs.Remove(caminho);
    }
  }

  // ---------------------------------------------------------------------
  // The extractors as one capability
  // ---------------------------------------------------------------------

  /** What the libraries behind the four extractors yield for one file. */
  datatype Extraction = Extraction(
    pdfDoc: Option<seq<Option<string>>>,  // PDF pages' text layers
    pdfOcr: string,                       // the PDF recognition fallback's result
    imageOcr: Option<string>,             // image recognition, None when it raises
    transcricao: string,                  // the audio shell's fixed transcript
    ffmpegOk: bool,                       // the video transcoder succeeded
    leavesPartial: bool)                  // a failed transcoder left a partial waveform

  /** The text the extractor for family `f` returns. */
  function ExtractedText(f: Formato, o: Extraction): string {
    match f
    case Pdf => PdfText(o.pdfDoc, o.pdfOcr)
    case Imagem => o.imageOcr.GetOr("")
    case Audio => o.transcricao
    case Video => o.transcricao
  }

  /** The files that exist after the extractor for family `f` has run on `caminho`. */
  function FilesAfterExtraction(files: set<string>, caminho: string, f: Formato, o: Extraction): set<string> {
    match f
    case Video => VideoFilesAfter(files, caminho, o.ffmpegOk, o.leavesPartial)
    case _ => files - {caminho}
  }

  /** Every extractor removes its input file, on every exit path. */
  lemma ExtractionRemovesInput(files: set<string>, caminho: string, f: Formato, o: Extraction)
    ensures caminho !in FilesAfterExtraction(files, caminho, f, o)
    ensures FilesAfterExtraction(files, caminho, f, o) - {AudioPath(caminho)} <= files
  {
    if f == Video {
      VideoCleanup(files, caminho, o.ffmpegOk, o.leavesPartial);
    }
  }
}
