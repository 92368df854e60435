/**
 The caption bookkeeping of `audios_to_pickle` for one account: every audio file
 whose caption file is missing is transcribed into `<name with .wav replaced by
 .pickle>`, and afterwards every `.pickle` caption whose audio file cannot be
 found again is deleted. Folders are sets of file names; the transcriber itself
 is not modelled, only which audio files it is called on.
 */
module Captions {
  import opened Names

  /** The caption file name paired with an audio file name: `audio_id.replace(".wav", ".pickle")`. */
  function CaptionNameFor(audio: string): string {
    Replace(audio, ".wav", ".pickle")
  }

  /**
   Where the pruning loop looks for the audio file of a caption. The name is
   `caption.stem.replace(".wav", "")` joined to the audio folder and then given
   the suffix `.wav`; when that name is empty or ".", the join leaves the audio
   folder itself and `with_suffix` renames the folder, so the file looked for
   sits beside the audio folder instead of inside it.
   */
  datatype AudioLookup = InFolder(name: string) | BesideFolder

  function AudioLookupFor(caption: string): AudioLookup {
    var s := Replace(Stem(caption), ".wav", "");
    if s == "" || s == "." then BesideFolder else InFolder(WithSuffix(s, ".wav"))
  }

  /** Whether the pruning loop finds the audio file of `caption`; `besideExists` says whether the file beside the audio folder exists. */
  predicate HasAudio(caption: string, audios: set<string>, besideExists: bool) {
    match AudioLookupFor(caption)
    case InFolder(n) => n in audios
    case BesideFolder => besideExists
  }

  /** A caption survives the pruning loop unless its suffix is `.pickle` and its audio file is not found. */
  predicate Keeps(caption: string, audios: set<string>, besideExists: bool) {
    Suffix(caption) != ".pickle" || HasAudio(caption, audios, besideExists)
  }

  /** The outcome of `audios_to_pickle` for one account: the audio files transcribed, and the caption folder afterwards. */
  datatype CaptionRun = CaptionRun(transcribed: set<string>, captions: set<string>)

  /** The caption file names written for a set of transcribed audio files. */
  function CaptionNames(audios: set<string>): (r: set<string>)
    ensures forall a :: a in audios ==> CaptionNameFor(a) in r
    ensures forall c :: c in r ==> exists a :: a in audios && CaptionNameFor(a) == c
  {
    set a | a in audios :: CaptionNameFor(a)
  }

  /**
   `audios_to_pickle` for one account, as written: the caption listing is taken
   before any caption is written, and the pruning loop lists the caption folder
   again afterwards.
   */
  function SyncCaptions(audios: set<string>, captions: set<string>, besideExists: bool): (r: CaptionRun)
    ensures forall a :: a in r.transcribed <==> a in audios && CaptionNameFor(a) !in captions
    ensures forall c :: c in captions && Suffix(c) != ".pickle" ==> c in r.captions
    ensures forall c :: c in captions && HasAudio(c, audios, besideExists) ==> c in r.captions
    ensures forall c :: c in r.captions ==> Keeps(c, audios, besideExists)
    ensures forall c :: c in r.captions && c !in captions ==> exists a :: a in r.transcribed && CaptionNameFor(a) == c
    ensures forall a :: a in audios && Keeps(CaptionNameFor(a), audios, besideExists) ==> CaptionNameFor(a) in r.captions
  {
    var transcribed := set a | a in audios && CaptionNameFor(a) !in captions;
    var listed := captions + CaptionNames(transcribed);
    CaptionRun(transcribed, set c | c in listed && Keeps(c, audios, besideExists))
  }

  /** An audio name as the downloader produces it: a dot-free, non-empty identifier followed by `.wav`. */
  predicate PlainWavName(a: string) {
    |a| > 4 && a[|a| - 4..] == ".wav" && DotFree(a[..|a| - 4])
  }

  /**
   Pairing round trip for plain names: the caption of `<id>.wav` is `<id>.pickle`,
   and the pruning loop looks for exactly `<id>.wav` when it checks that caption.
   */
  lemma PairingRoundTrip(a: string)
    requires PlainWavName(a)
    ensures CaptionNameFor(a) == a[..|a| - 4] + ".pickle"
    ensures Suffix(CaptionNameFor(a)) == ".pickle"
    ensures AudioLookupFor(CaptionNameFor(a)) == InFolder(a)
  {
    var base := a[..|a| - 4];
    assert a == base + ".wav";
    ReplaceExtension(base, ".wav", ".pickle");
    assert DotFree(".pickle"[1..]);
    SplitExtension(base, ".pickle");
    ReplaceInDotFree(base, ".wav", "");
    DotFreeHasNoSuffix(base);
    assert base != "." by {
      assert base[0] != '.';
    }
  }

  /** The caption of a plain audio name survives pruning whenever the audio file itself is there. */
  lemma PlainCaptionKept(a: string, audios: set<string>, besideExists: bool)
    requires PlainWavName(a) && a in audios
    ensures Keeps(CaptionNameFor(a), audios, besideExists)
  {
    PairingRoundTrip(a);
  }

  /**
   After one run the caption folder is at a fixed point, and each later run
   transcribes exactly the audio files whose own caption the pruning loop deletes.
   */
  lemma SecondRun(audios: set<string>, captions: set<string>, besideExists: bool)
    ensures var r1 := SyncCaptions(audios, captions, besideExists);
      var r2 := SyncCaptions(audios, r1.captions, besideExists);
      && r2.captions == r1.captions
      && forall a :: a in r2.transcribed <==> a in audios && !Keeps(CaptionNameFor(a), audios, besideExists)
  {
  }

  /** With plain audio names a second run transcribes nothing and changes no caption. */
  lemma SyncSettles(audios: set<string>, captions: set<string>, besideExists: bool)
    requires forall a :: a in audios ==> PlainWavName(a)
    ensures var r1 := SyncCaptions(audios, captions, besideExists);
      SyncCaptions(audios, r1.captions, besideExists) == CaptionRun({}, r1.captions)
  {
    SecondRun(audios, captions, besideExists);
    forall a | a in audios ensures Keeps(CaptionNameFor(a), audios, besideExists) {
      PlainCaptionKept(a, audios, besideExists);
    }
  }

  /**
   An audio file whose name has a dot before `.wav` loses its caption on every
   run: `a.b.wav` gets the caption `a.b.pickle`, whose stem `a.b` becomes `a.wav`
   under `with_suffix`, so the caption is deleted and transcribed again next time.
   */
  lemma DottedStemRetranscribed()
    ensures var r1 := SyncCaptions({"a.b.wav"}, {}, false);
      && r1 == CaptionRun({"a.b.wav"}, {})
      && SyncCaptions({"a.b.wav"}, r1.captions, false) == r1
  {
    var audios := {"a.b.wav"};
    DottedCaptionName();
    DottedLookup();
    CaptionNamesOfOne("a.b.wav");
    assert !Keeps("a.b.pickle", audios, false);
    var r1 := SyncCaptions(audios, {}, false);
    assert r1.transcribed == audios;
    assert r1.captions == {};
  }

  lemma DottedCaptionName()
    ensures CaptionNameFor("a.b.wav") == "a.b.pickle"
  {
    var p := ".wav";
    var r := ".pickle";
    assert "a.b.wav"[..4] != p && "a.b.wav"[1..] == ".b.wav";
    assert ".b.wav"[..4] != p && ".b.wav"[1..] == "b.wav";
    assert "b.wav"[..4] != p && "b.wav"[1..] == ".wav";
    assert ".wav"[..4] == p && ".wav"[4..] == "";
    calc {
      Replace("a.b.wav", p, r);
      "a" + Replace(".b.wav", p, r);
      "a" + ("." + Replace("b.wav", p, r));
      "a" + ("." + ("b" + Replace(".wav", p, r)));
      "a" + ("." + ("b" + (r + Replace("", p, r))));
      "a.b.pickle";
    }
  }

  lemma DottedLookup()
    ensures Suffix("a.b.pickle") == ".pickle"
    ensures AudioLookupFor("a.b.pickle") == InFolder("a.wav")
  {
    assert DotFree(".pickle"[1..]);
    assert "a.b.pickle" == "a.b" + ".pickle";
    SplitExtension("a.b", ".pickle");
    assert Replace("a.b", ".wav", "") == "a.b";
    assert DotFree(".b"[1..]);
    assert "a.b" == "a" + ".b";
    SplitExtension("a", ".b");
  }

  /** Different plain audio names get different caption names: pairing by name loses no audio file. */
  lemma PlainCaptionsDistinct(a: string, b: string)
    requires PlainWavName(a) && PlainWavName(b) && a != b
    ensures CaptionNameFor(a) != CaptionNameFor(b)
  {
    PairingRoundTrip(a);
    PairingRoundTrip(b);
  }

  // ---------------------------------------------------------------------------
  // Pruning by pairing

  /**
   The pruning loop as evidently intended: a `.pickle` caption survives when the
   loop's own lookup finds its audio file, and also when some audio file in the
   folder is paired with it by name.
   */
  predicate PairedKeeps(caption: string, audios: set<string>, besideExists: bool) {
    Keeps(caption, audios, besideExists) || caption in CaptionNames(audios)
  }

  /**
   `audios_to_pickle` with pairing-based pruning: transcription as in the source;
   afterwards every audio file has its caption, what the source keeps is kept,
   and a `.pickle` caption remains only when its audio file is found or paired.
   */
  function PairedSync(audios: set<string>, captions: set<string>, besideExists: bool): (r: CaptionRun)
    ensures forall a :: a in r.transcribed <==> a in audios && CaptionNameFor(a) !in captions
    ensures forall a :: a in audios ==> CaptionNameFor(a) in r.captions
    ensures forall c :: c in captions && Keeps(c, audios, besideExists) ==> c in r.captions
    ensures forall c :: c in r.captions && Suffix(c) == ".pickle" ==>
      HasAudio(c, audios, besideExists) || exists a :: a in audios && CaptionNameFor(a) == c
    ensures forall c :: c in r.captions && c !in captions ==> exists a :: a in r.transcribed && CaptionNameFor(a) == c
  {
    var transcribed := set a | a in audios && CaptionNameFor(a) !in captions;
    var listed := captions + CaptionNames(transcribed);
    CaptionRun(transcribed, set c | c in listed && PairedKeeps(c, audios, besideExists))
  }

  /** With pairing-based pruning a second run transcribes nothing and changes no caption, whatever the names. */
  lemma PairedSyncSettles(audios: set<string>, captions: set<string>, besideExists: bool)
    ensures var r1 := PairedSync(audios, captions, besideExists);
      PairedSync(audios, r1.captions, besideExists) == CaptionRun({}, r1.captions)
  {
    var r1 := PairedSync(audios, captions, besideExists);
    var r2 := PairedSync(audios, r1.captions, besideExists);
    assert r2.transcribed == {};
    assert CaptionNames(r2.transcribed) == {};
  }

  /** On plain audio names the two pruning rules agree: both keep exactly the same captions. */
  lemma PairedKeepsIffKeeps(c: string, audios: set<string>, besideExists: bool)
    requires forall a :: a in audios ==> PlainWavName(a)
    ensures PairedKeeps(c, audios, besideExists) <==> Keeps(c, audios, besideExists)
  {
    if c in CaptionNames(audios) {
      var a :| a in audios && CaptionNameFor(a) == c;
      PlainCaptionKept(a, audios, besideExists);
    }
  }

  /** On plain audio names the corrected run and the run as written have the same outcome. */
  lemma PairedSyncAgrees(audios: set<string>, captions: set<string>, besideExists: bool)
    requires forall a :: a in audios ==> PlainWavName(a)
    ensures PairedSync(audios, captions, besideExists) == SyncCaptions(audios, captions, besideExists)
  {
    forall c | c in captions + CaptionNames(audios)
      ensures PairedKeeps(c, audios, besideExists) <==> Keeps(c, audios, besideExists)
    {
      PairedKeepsIffKeeps(c, audios, besideExists);
    }
  }

  /** The dotted name that the as-written pruning keeps deleting keeps its caption under pairing-based pruning. */
  lemma DottedStemPaired()
    ensures PairedSync({"a.b.wav"}, {}, false) == CaptionRun({"a.b.wav"}, {"a.b.pickle"})
  {
    var audios := {"a.b.wav"};
    DottedCaptionName();
    CaptionNamesOfOne("a.b.wav");
    var r := PairedSync(audios, {}, false);
    assert r.transcribed == audios;
    assert r.captions == {"a.b.pickle"};
  }

  lemma CaptionNamesOfOne(a: string)
    ensures CaptionNames({a}) == {CaptionNameFor(a)}
  {
  }
}
