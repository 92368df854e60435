/**
 The ledger-based deduplication of `download_media`: for each account, the
 audio category and the video category each compare a links file with a DB
 ledger, hand the identifiers not yet in the ledger to the downloader through a
 batch file, append them to the ledger and reset the links file to its header.
 */
module Download {
  import opened Text
  import opened Names
  import opened Ledger
  import opened Accounts

  datatype Kind = Audio | Video

  /**
   One dedup category: the links file `Links/<name>` and the ledger `DB/<name>`
   share the file name, and `folder` is where the downloader writes the media.
   */
  datatype Category = Category(kind: Kind, name: string, folder: string)

  function LinksPath(c: Category): FilePath {
    FilePath("Links", c.name)
  }

  function DbPath(c: Category): FilePath {
    FilePath("DB", c.name)
  }

  /** The transient batch file `aux.csv` in the working directory. */
  const BatchFile: FilePath := FilePath("", "aux.csv")

  /** The audio category of an account reads exactly the audio files its accountConfig names. */
  function AudioCategory(a: Account): (c: Category)
    ensures LinksPath(c) == ConfigOf(a).audioLinks && DbPath(c) == ConfigOf(a).audioDb
    ensures Suffix(c.name) == ".csv"
  {
    var cfg := ConfigOf(a);
    Category(Audio, cfg.audioLinks.name, cfg.audioFolder)
  }

  /** The video category of an account reads exactly the video files its accountConfig names. */
  function VideoCategory(a: Account): (c: Category)
    ensures LinksPath(c) == ConfigOf(a).videoLinks && DbPath(c) == ConfigOf(a).videoDb
    ensures Suffix(c.name) == ".csv"
  {
    var cfg := ConfigOf(a);
    Category(Video, cfg.videoLinks.name, cfg.videoFolder)
  }

  /** One invocation of the downloader: what it downloads, where it writes, and the text of the batch file it reads. */
  datatype Fetch = Fetch(kind: Kind, folder: string, batch: string)

  /** The disk after a step and the downloader invocations the step made, in order. */
  datatype Run = Run(disk: Disk, fetches: seq<Fetch>)

  predicate AllIds(p: set<string>) {
    forall x :: x in p ==> IsId(x)
  }

  /** Nothing in the links file is missing from the ledger (or one of the two files does not exist). */
  predicate Settled(d: Disk, c: Category) {
    LinksPath(c) in d && DbPath(c) in d ==> ParseIds(d[LinksPath(c)]) <= ParseIds(d[DbPath(c)])
  }

  /** `missing = links - db` when both files exist; nothing when either is missing. */
  function Pending(d: Disk, c: Category): (p: set<string>)
    ensures AllIds(p) && Header !in p
    ensures forall x :: x in p ==> LinksPath(c) in d && x in ParseIds(d[LinksPath(c)])
    ensures p == {} <==> Settled(d, c)
    ensures DbPath(c) in d ==> forall x :: x in p ==> x !in ParseIds(d[DbPath(c)])
    ensures LinksPath(c) in d && DbPath(c) in d ==>
      forall x :: x in ParseIds(d[LinksPath(c)]) && x !in ParseIds(d[DbPath(c)]) ==> x in p
    ensures LinksPath(c) !in d || DbPath(c) !in d ==> p == {}
  {
    if LinksPath(c) in d && DbPath(c) in d
    then ParseIds(d[LinksPath(c)]) - ParseIds(d[DbPath(c)])
    else {}
  }

  /**
   The order in which Python iterates the pending set. The language leaves it
   unspecified; the model fixes some order, and the same one serves both loops
   over the set (the batch file and the ledger append), as in the source.
   */
  ghost function Enumerate(s: set<string>): (xs: seq<string>)
    ensures Elems(xs) == s && Distinct(xs) && |xs| == |s|
    decreases |s|
  {
    if s == {} then []
    else
      var x :| x in s;
      var rest := Enumerate(s - {x});
      assert Elems([x] + rest) == {x} + Elems(rest);
      [x] + rest
  }

  /** The batch file lists every identifier of `p` on a line of its own, once, and nothing else. */
  predicate OneIdPerLine(t: string, p: set<string>) {
    var ls := SplitLines(t);
    |ls| == |p| + 1 && ls[|p|] == "" && Elems(ls[..|p|]) == p && Distinct(ls[..|p|])
  }

  /** The text written to `aux.csv` and appended to the ledger for a pending set. */
  ghost function BatchText(p: set<string>): (t: string)
    ensures Terminated(t)
    ensures p != {} ==> t != ""
  {
    WriteLines(Enumerate(p))
  }

  /** Round trip of the batch: it lists each pending identifier once, one per line, and parses back to the pending set. */
  lemma BatchTextListsPending(p: set<string>)
    requires AllIds(p)
    ensures OneIdPerLine(BatchText(p), p) && ParseIds(BatchText(p)) == p
  {
    var xs := Enumerate(p);
    assert forall i :: 0 <= i < |xs| ==> IsId(xs[i]);
    SplitWriteLines(xs);
    ParseWriteLines(xs);
    assert SplitLines(WriteLines(xs))[..|p|] == xs;
  }

  /**
   The `if missing:` block for one category. With nothing pending nothing
   happens. Otherwise the downloader is handed the batch; `aux.csv` is then gone,
   the links file is deleted and recreated by `_create_file`, and the batch is
   appended to the ledger whatever the downloader did.
   */
  ghost function Consume(d: Disk, c: Category, p: set<string>): Run {
    if p == {} then Run(d, [])
    else
      var batch := BatchText(p);
      // aux.csv is written, read by the downloader and removed.
      var d1 := d - {BatchFile};
      var d2 := CreateFile(d1 - {LinksPath(c)}, LinksPath(c));
      var kept := if DbPath(c) in d2 then d2[DbPath(c)] else "";
      Run(d2[DbPath(c) := kept + batch], [Fetch(c.kind, c.folder, batch)])
  }

  /**
   What one category's block does to the disk: with something pending, one
   downloader call on the batch, `aux.csv` gone, the links file fresh, the batch
   appended to the ledger, and every other file as it was.
   */
  lemma ConsumeEffect(d: Disk, c: Category, p: set<string>)
    ensures var r := Consume(d, c, p);
      && (p == {} ==> r == Run(d, []))
      && (p != {} ==> r.fetches == [Fetch(c.kind, c.folder, BatchText(p))])
      && (p != {} ==> r.disk.Keys == d.Keys - {BatchFile} + {LinksPath(c), DbPath(c)})
      && (p != {} ==> r.disk[LinksPath(c)] == NewFileText(LinksPath(c)))
      && (p != {} ==> r.disk[DbPath(c)] == (if DbPath(c) in d then d[DbPath(c)] else "") + BatchText(p))
      && (forall q :: q in d && q != BatchFile && q != LinksPath(c) && q != DbPath(c) ==> q in r.disk && r.disk[q] == d[q])
  {
  }

  /** One iteration of the accounts loop of `download_media`: both pending sets are computed before either is acted on. */
  ghost function FetchAccount(d: Disk, a: Account): (r: Run)
  {
    var audio := AudioCategory(a);
    var video := VideoCategory(a);
    var pa := Pending(d, audio);
    var pv := Pending(d, video);
    var r1 := Consume(d, audio, pa);
    var r2 := Consume(r1.disk, video, pv);
    Run(r2.disk, r1.fetches + r2.fetches)
  }

  /** The dedup part of `download_media` over all accounts, in order. */
  ghost function FetchAll(d: Disk, accounts: seq<Account>): (r: Run)
    decreases |accounts|
  {
    if |accounts| == 0 then Run(d, [])
    else
      var first := FetchAccount(d, accounts[0]);
      var rest := FetchAll(first.disk, accounts[1..]);
      Run(rest.disk, first.fetches + rest.fetches)
  }

  // ---------------------------------------------------------------------------
  // One category

  /**
   A run of one category when something is pending: the batch file holds exactly
   the pending identifiers, none of them already in the ledger; the ledger keeps
   its old text and, if that ended a line, afterwards parses to the old ledger
   plus the pending set; the links file parses to nothing.
   */
  lemma ConsumePending(d: Disk, c: Category)
    requires Pending(d, c) != {}
    ensures var p := Pending(d, c);
      var r := Consume(d, c, p);
      && LinksPath(c) in d && DbPath(c) in d
      && |r.fetches| == 1
      && OneIdPerLine(r.fetches[0].batch, p)
      && ParseIds(r.fetches[0].batch) == p
      && ParseIds(r.fetches[0].batch) * ParseIds(d[DbPath(c)]) == {}
      && r.disk[DbPath(c)][..|d[DbPath(c)]|] == d[DbPath(c)]
      && (Terminated(d[DbPath(c)]) ==> ParseIds(r.disk[DbPath(c)]) == ParseIds(d[DbPath(c)]) + p)
      && ParseIds(r.disk[LinksPath(c)]) == {}
  {
    var p := Pending(d, c);
    var r := Consume(d, c, p);
    var db := d[DbPath(c)];
    ConsumeEffect(d, c, p);
    NewFileIsBlank(LinksPath(c));
    BatchTextListsPending(p);
    assert r.disk[DbPath(c)] == db + BatchText(p);
    if Terminated(db) {
      ParseIdsAppend(db, BatchText(p));
    }
  }

  /**
   A worked example: links `a`, `b`, `c` against a ledger that holds `a` and `b`
   (each file a header followed by one identifier per line) leave only `c` pending.
   */
  lemma PendingExample(d: Disk, c: Category)
    requires LinksPath(c) in d && d[LinksPath(c)] == HeaderFile + WriteLines(["a", "b", "c"])
    requires DbPath(c) in d && d[DbPath(c)] == HeaderFile + WriteLines(["a", "b"])
    ensures Pending(d, c) == {"c"}
  {
    var xs := ["a", "b", "c"];
    var ys := ["a", "b"];
    ExampleIds(xs, ys);
    HeaderedIds(xs);
    HeaderedIds(ys);
  }

  lemma ExampleIds(xs: seq<string>, ys: seq<string>)
    requires xs == ["a", "b", "c"] && ys == ["a", "b"]
    ensures forall i :: 0 <= i < |xs| ==> IsId(xs[i])
    ensures forall i :: 0 <= i < |ys| ==> IsId(ys[i])
    ensures Elems(xs) == {"a", "b", "c"} && Elems(ys) == {"a", "b"}
  {
    assert Strip("a") == "a" && Strip("b") == "b" && Strip("c") == "c";
  }

  /** With the files missing or nothing pending, no batch is written, nothing is downloaded and no file changes. */
  lemma ConsumeNothingPending(d: Disk, c: Category)
    requires LinksPath(c) !in d || DbPath(c) !in d || ParseIds(d[LinksPath(c)]) <= ParseIds(d[DbPath(c)])
    ensures Consume(d, c, Pending(d, c)) == Run(d, [])
  {
  }

  /** After acting on a non-empty pending set the category is settled, whatever the set was. */
  lemma ConsumeSettles(d: Disk, c: Category, p: set<string>)
    requires p != {}
    ensures Settled(Consume(d, c, p).disk, c)
  {
    NewFileIsBlank(LinksPath(c));
    ConsumeEffect(d, c, p);
  }

  /** Acting on one category leaves every other settled category settled. */
  lemma ConsumeKeepsSettled(d: Disk, c: Category, p: set<string>, e: Category)
    requires Settled(d, e)
    ensures Settled(Consume(d, c, p).disk, e)
  {
    if p != {} {
      if e.name == c.name {
        ConsumeSettles(d, c, p);
        assert LinksPath(e) == LinksPath(c) && DbPath(e) == DbPath(c);
      } else {
        assert LinksPath(e) != LinksPath(c) && LinksPath(e) != DbPath(c) && LinksPath(e) != BatchFile;
        assert DbPath(e) != LinksPath(c) && DbPath(e) != DbPath(c) && DbPath(e) != BatchFile;
      }
    }
  }

  /**
   When an account's edition is `audio` with content equal to its language, its
   audio and video categories read the same two files. Both pending sets are
   computed first, so the same batch goes to the downloader twice (once as audio,
   once as video) and is appended to the ledger twice.
   */
  lemma AliasedCategoriesFetchTwice(d: Disk, a: Account)
    requires a.editionType == "audio" && a.editionContent == a.language
    requires Pending(d, AudioCategory(a)) != {}
    ensures var r := FetchAccount(d, a);
      var batch := BatchText(Pending(d, AudioCategory(a)));
      && r.fetches == [Fetch(Audio, AudioCategory(a).folder, batch), Fetch(Video, VideoCategory(a).folder, batch)]
      && r.disk[DbPath(AudioCategory(a))] == d[DbPath(AudioCategory(a))] + batch + batch
  {
    var audio := AudioCategory(a);
    var video := VideoCategory(a);
    AliasedPaths(a);
    var p := Pending(d, audio);
    PendingByPaths(d, audio, video);
    var batch := BatchText(p);
    var r1 := Consume(d, audio, p);
    var r2 := Consume(r1.disk, video, p);
    assert FetchAccount(d, a) == Run(r2.disk, r1.fetches + r2.fetches);
    ConsumeAppends(d, audio, p);
    ConsumeAppends(r1.disk, video, p);
    PairOfSingletons(Fetch(Audio, audio.folder, batch), Fetch(Video, video.folder, batch));
    assert r2.disk[DbPath(audio)] == d[DbPath(audio)] + batch + batch;
  }

  /** The two effects of a category's block that concern the downloader and the ledger. */
  lemma ConsumeAppends(d: Disk, c: Category, p: set<string>)
    requires p != {} && DbPath(c) in d
    ensures Consume(d, c, p).fetches == [Fetch(c.kind, c.folder, BatchText(p))]
    ensures DbPath(c) in Consume(d, c, p).disk
    ensures Consume(d, c, p).disk[DbPath(c)] == d[DbPath(c)] + BatchText(p)
  {
    ConsumeEffect(d, c, p);
  }

  /** The pending set depends only on the two files a category reads. */
  lemma PendingByPaths(d: Disk, c: Category, e: Category)
    requires LinksPath(c) == LinksPath(e) && DbPath(c) == DbPath(e)
    ensures Pending(d, c) == Pending(d, e)
  {
  }

  lemma AliasedPaths(a: Account)
    requires a.editionType == "audio" && a.editionContent == a.language
    ensures LinksPath(AudioCategory(a)) == LinksPath(VideoCategory(a))
    ensures DbPath(AudioCategory(a)) == DbPath(VideoCategory(a))
  {
    assert "audio_" + a.language + ".csv" == a.editionType + "_" + a.editionContent + ".csv";
  }

  // ---------------------------------------------------------------------------
  // Whole runs

  lemma FetchAccountKeepsSettled(d: Disk, a: Account, e: Category)
    requires Settled(d, e)
    ensures Settled(FetchAccount(d, a).disk, e)
  {
    var audio := AudioCategory(a);
    var video := VideoCategory(a);
    var r1 := Consume(d, audio, Pending(d, audio));
    ConsumeKeepsSettled(d, audio, Pending(d, audio), e);
    ConsumeKeepsSettled(r1.disk, video, Pending(d, video), e);
  }

  /** After an account's step both of its categories are settled. */
  lemma FetchAccountSettles(d: Disk, a: Account)
    ensures Settled(FetchAccount(d, a).disk, AudioCategory(a))
    ensures Settled(FetchAccount(d, a).disk, VideoCategory(a))
  {
    var audio := AudioCategory(a);
    var video := VideoCategory(a);
    var pa := Pending(d, audio);
    var pv := Pending(d, video);
    var r1 := Consume(d, audio, pa);
    if pa != {} {
      ConsumeSettles(d, audio, pa);
    }
    assert Settled(r1.disk, audio);
    ConsumeKeepsSettled(r1.disk, video, pv, audio);
    if pv != {} {
      ConsumeSettles(r1.disk, video, pv);
    } else {
      ConsumeKeepsSettled(d, audio, pa, video);
    }
  }

  lemma {:induction false} FetchAllKeepsSettled(d: Disk, accounts: seq<Account>, e: Category)
    requires Settled(d, e)
    ensures Settled(FetchAll(d, accounts).disk, e)
    decreases |accounts|
  {
    if |accounts| > 0 {
      FetchAccountKeepsSettled(d, accounts[0], e);
      FetchAllKeepsSettled(FetchAccount(d, accounts[0]).disk, accounts[1..], e);
    }
  }

  /** The categories an account's step acts on. */
  predicate OwnCategory(a: Account, e: Category) {
    e == AudioCategory(a) || e == VideoCategory(a)
  }

  /** Every category of every account is settled once download_media has run. */
  lemma {:induction false} FetchAllSettles(d: Disk, accounts: seq<Account>, a: Account, e: Category)
    requires a in accounts && OwnCategory(a, e)
    ensures Settled(FetchAll(d, accounts).disk, e)
    decreases |accounts|
  {
    var d1 := FetchAccount(d, accounts[0]).disk;
    if a == accounts[0] {
      FetchAccountSettles(d, a);
      FetchAllKeepsSettled(d1, accounts[1..], e);
    } else {
      assert a in accounts[1..];
      FetchAllSettles(d1, accounts[1..], a, e);
    }
  }

  predicate AllSettled(d: Disk, accounts: seq<Account>) {
    forall i :: 0 <= i < |accounts| ==> Settled(d, AudioCategory(accounts[i])) && Settled(d, VideoCategory(accounts[i]))
  }

  /** When every category is settled, download_media fetches nothing and changes no file. */
  lemma {:induction false} FetchAllQuiet(d: Disk, accounts: seq<Account>)
    requires AllSettled(d, accounts)
    ensures FetchAll(d, accounts) == Run(d, [])
    decreases |accounts|
  {
    if |accounts| > 0 {
      var a := accounts[0];
      assert Settled(d, AudioCategory(a)) && Settled(d, VideoCategory(a));
      assert FetchAccount(d, a) == Run(d, []);
      assert AllSettled(d, accounts[1..]) by {
        forall i | 0 <= i < |accounts[1..]|
          ensures Settled(d, AudioCategory(accounts[1..][i])) && Settled(d, VideoCategory(accounts[1..][i]))
        {
          assert accounts[1..][i] == accounts[i + 1];
        }
      }
      FetchAllQuiet(d, accounts[1..]);
    }
  }

  /** Idempotence: a second download_media with no new links fetches nothing and changes no file. */
  lemma FetchAllIdempotent(d: Disk, accounts: seq<Account>)
    ensures var r := FetchAll(d, accounts);
      FetchAll(r.disk, accounts) == Run(r.disk, [])
  {
    var r := FetchAll(d, accounts);
    forall i | 0 <= i < |accounts|
      ensures Settled(r.disk, AudioCategory(accounts[i])) && Settled(r.disk, VideoCategory(accounts[i]))
    {
      FetchAllSettles(d, accounts, accounts[i], AudioCategory(accounts[i]));
      FetchAllSettles(d, accounts, accounts[i], VideoCategory(accounts[i]));
    }
    FetchAllQuiet(r.disk, accounts);
  }

  // ---------------------------------------------------------------------------
  // Ledgers are append-only

  /** `t` starts with `prefix`. */
  predicate Extends(t: string, prefix: string) {
    |prefix| <= |t| && t[..|prefix|] == prefix
  }

  lemma ConsumeExtendsLedgers(d: Disk, c: Category, p: set<string>, q: FilePath)
    requires q in d && q.dir == "DB"
    ensures q in Consume(d, c, p).disk && Extends(Consume(d, c, p).disk[q], d[q])
  {
    if p != {} && q == DbPath(c) {
      var t := Consume(d, c, p).disk[q];
      assert t == d[q] + BatchText(p);
      assert t[..|d[q]|] == d[q];
    }
  }

  lemma ExtendsTransitive(a: string, b: string, c: string)
    requires Extends(b, a) && Extends(c, b)
    ensures Extends(c, a)
  {
    assert c[..|a|] == c[..|b|][..|a|];
  }

  lemma FetchAccountExtendsLedgers(d: Disk, a: Account, q: FilePath)
    requires q in d && q.dir == "DB"
    ensures q in FetchAccount(d, a).disk && Extends(FetchAccount(d, a).disk[q], d[q])
  {
    var audio := AudioCategory(a);
    var video := VideoCategory(a);
    var r1 := Consume(d, audio, Pending(d, audio));
    ConsumeExtendsLedgers(d, audio, Pending(d, audio), q);
    ConsumeExtendsLedgers(r1.disk, video, Pending(d, video), q);
    ExtendsTransitive(d[q], r1.disk[q], FetchAccount(d, a).disk[q]);
  }

  /** download_media never removes or rewrites ledger text: every ledger only grows at its end. */
  lemma {:induction false} FetchAllExtendsLedgers(d: Disk, accounts: seq<Account>, q: FilePath)
    requires q in d && q.dir == "DB"
    ensures q in FetchAll(d, accounts).disk && Extends(FetchAll(d, accounts).disk[q], d[q])
    decreases |accounts|
  {
    if |accounts| == 0 {
      assert d[q][..|d[q]|] == d[q];
    } else {
      var d1 := FetchAccount(d, accounts[0]).disk;
      FetchAccountExtendsLedgers(d, accounts[0], q);
      FetchAllExtendsLedgers(d1, accounts[1..], q);
      ExtendsTransitive(d[q], d1[q], FetchAll(d, accounts).disk[q]);
    }
  }

  /** A ledger that ends a line keeps every identifier it held through any later download_media. */
  lemma LedgerKeepsIds(d: Disk, accounts: seq<Account>, q: FilePath)
    requires q in d && q.dir == "DB" && Terminated(d[q])
    ensures q in FetchAll(d, accounts).disk
    ensures ParseIds(d[q]) <= ParseIds(FetchAll(d, accounts).disk[q])
  {
    FetchAllExtendsLedgers(d, accounts, q);
    var t := FetchAll(d, accounts).disk[q];
    assert t == d[q] + t[|d[q]|..];
    ParseIdsAppend(d[q], t[|d[q]|..]);
  }

  /** Once an identifier is in a category's ledger, no later run lists it as pending for that category. */
  lemma LedgeredNeverPending(d: Disk, accounts: seq<Account>, c: Category)
    requires DbPath(c) in d && Terminated(d[DbPath(c)])
    ensures forall x :: x in ParseIds(d[DbPath(c)]) ==> x !in Pending(FetchAll(d, accounts).disk, c)
  {
    LedgerKeepsIds(d, accounts, DbPath(c));
  }

  /** Every ledger ends a line once download_media has run, if every ledger did before. */
  predicate LedgersTerminated(d: Disk) {
    forall q :: q in d && q.dir == "DB" ==> Terminated(d[q])
  }

  lemma ConsumeKeepsTerminated(d: Disk, c: Category, p: set<string>)
    requires LedgersTerminated(d)
    ensures LedgersTerminated(Consume(d, c, p).disk)
  {
    if p != {} {
      var r := Consume(d, c, p).disk;
      forall q | q in r && q.dir == "DB" ensures Terminated(r[q]) {
        if q == DbPath(c) {
          var kept := if DbPath(c) in d then d[DbPath(c)] else "";
          assert r[q] == kept + BatchText(p);
          assert BatchText(p) != "";
          assert r[q][|r[q]| - 1] == BatchText(p)[|BatchText(p)| - 1];
        }
      }
    }
  }

  lemma {:induction false} FetchAllKeepsTerminated(d: Disk, accounts: seq<Account>)
    requires LedgersTerminated(d)
    ensures LedgersTerminated(FetchAll(d, accounts).disk)
    decreases |accounts|
  {
    if |accounts| > 0 {
      var a := accounts[0];
      var audio := AudioCategory(a);
      var video := VideoCategory(a);
      var r1 := Consume(d, audio, Pending(d, audio));
      ConsumeKeepsTerminated(d, audio, Pending(d, audio));
      ConsumeKeepsTerminated(r1.disk, video, Pending(d, video));
      FetchAllKeepsTerminated(FetchAccount(d, a).disk, accounts[1..]);
    }
  }

  /** write_folders only creates ledgers that end a line, so it keeps every ledger terminated. */
  lemma WriteFoldersKeepsTerminated(d: Disk, accounts: seq<Account>)
    requires LedgersTerminated(d)
    ensures LedgersTerminated(WriteFolders(d, accounts))
  {
    var r := WriteFolders(d, accounts);
    forall q | q in r && q.dir == "DB" ensures Terminated(r[q]) {
      if q !in d {
        NewFileIsBlank(q);
      }
    }
  }
}
