/**
 The per-account path templates of config_env.py: `accountConfig`, which names
 the files and folders a run reads, and `write_folders`, which creates the
 files beforehand.
 */
module Accounts {
  import opened Names
  import opened Ledger

  /** One entry of the accounts configuration, with the keys config_env.py reads. */
  datatype Account = Account(
    name: string,
    language: string,
    kind: string,
    editionType: string,
    editionContent: string)

  /** `accountConfig`: the paths derived from one account. */
  datatype AccountConfig = AccountConfig(
    language: string,
    audioLinks: FilePath,
    videoLinks: FilePath,
    audioDb: FilePath,
    videoDb: FilePath,
    audioFolder: string,
    videoFolder: string,
    captionFolder: string)

  /** `accountConfig.__init__`. */
  function ConfigOf(a: Account): (c: AccountConfig)
    ensures c.audioLinks.dir == "Links" && c.videoLinks.dir == "Links"
    ensures c.audioDb.dir == "DB" && c.videoDb.dir == "DB"
    ensures c.audioLinks.name == c.audioDb.name && c.videoLinks.name == c.videoDb.name
    ensures Suffix(c.audioLinks.name) == ".csv" && Suffix(c.videoLinks.name) == ".csv"
  {
    var audioName := "audio_" + a.language + ".csv";
    var videoName := a.editionType + "_" + a.editionContent + ".csv";
    CsvName("audio_" + a.language);
    CsvName(a.editionType + "_" + a.editionContent);
    AccountConfig(
      language := a.language,
      audioLinks := FilePath("Links", audioName),
      videoLinks := FilePath("Links", videoName),
      audioDb := FilePath("DB", audioName),
      videoDb := FilePath("DB", videoName),
      audioFolder := "Media/" + a.kind + "/Audios/" + a.language,
      videoFolder := "Media/" + a.kind + "/" + a.editionType + "/" + a.editionContent,
      captionFolder := "Media/" + a.kind + "/Captions/" + a.language)
  }

  /** A file name built as `<base>.csv` with a non-empty base has the suffix `.csv`. */
  lemma CsvName(base: string)
    requires |base| > 0
    ensures Suffix(base + ".csv") == ".csv"
  {
    assert DotFree(".csv"[1..]);
    SplitExtension(base, ".csv");
  }

  /** The per-account ledger `DB/<name>.csv` that write_folders also creates. */
  function AccountLedger(a: Account): FilePath {
    FilePath("DB", a.name + ".csv")
  }

  /** The files an account's configuration names, plus its account ledger. */
  function ConfiguredFiles(a: Account): set<FilePath> {
    var c := ConfigOf(a);
    {AccountLedger(a), c.audioLinks, c.videoLinks, c.audioDb, c.videoDb}
  }

  function AllConfiguredFiles(accounts: seq<Account>): set<FilePath> {
    if |accounts| == 0 then {} else ConfiguredFiles(accounts[0]) + AllConfiguredFiles(accounts[1..])
  }

  /** The `_create_file` calls of one iteration of write_folders, in order. */
  function AccountFiles(a: Account): seq<FilePath> {
    [ FilePath("DB", a.name + ".csv"),
      FilePath("DB", "audio_" + a.language + ".csv"),
      FilePath("DB", a.editionType + "_" + a.editionContent + ".csv"),
      FilePath("Links", "audio_" + a.language + ".csv"),
      FilePath("Links", a.editionType + "_" + a.editionContent + ".csv") ]
  }

  /** `_create_file` on each path in turn. */
  function CreateFiles(d: Disk, ps: seq<FilePath>): (r: Disk)
    ensures r.Keys == d.Keys + (set p | p in ps)
    ensures forall q :: q in d ==> r[q] == d[q]
    ensures forall q :: q in r && q !in d ==> r[q] == NewFileText(q)
    decreases |ps|
  {
    if |ps| == 0 then d
    else
      var r := CreateFiles(CreateFile(d, ps[0]), ps[1..]);
      assert (set p | p in ps) == {ps[0]} + (set p | p in ps[1..]);
      r
  }

  /** The `_create_file` calls of the whole accounts loop of write_folders, in order. */
  function FilesToCreate(accounts: seq<Account>): (ps: seq<FilePath>)
    ensures (set p | p in ps) == AllConfiguredFiles(accounts)
  {
    if |accounts| == 0 then []
    else
      AccountFilesAreConfigured(accounts[0]);
      PathsOfConcat(AccountFiles(accounts[0]), FilesToCreate(accounts[1..]));
      AccountFiles(accounts[0]) + FilesToCreate(accounts[1..])
  }

  lemma PathsOfConcat(a: seq<FilePath>, b: seq<FilePath>)
    ensures (set p | p in a + b) == (set p | p in a) + (set p | p in b)
  {
  }

  /**
   The file part of `write_folders`: the files that exist afterwards are the old
   ones plus exactly those each account's configuration names, files that existed
   are untouched, and every new file is what `_create_file` writes into a new file.
   */
  function WriteFolders(d: Disk, accounts: seq<Account>): (r: Disk)
    ensures r.Keys == d.Keys + AllConfiguredFiles(accounts)
    ensures forall q :: q in d ==> r[q] == d[q]
    ensures forall q :: q in r && q !in d ==> r[q] == NewFileText(q)
  {
    CreateFiles(d, FilesToCreate(accounts))
  }

  /** write_folders creates, for one account, exactly the files its accountConfig names plus its account ledger. */
  lemma AccountFilesAreConfigured(a: Account)
    ensures (set p | p in AccountFiles(a)) == ConfiguredFiles(a)
  {
  }

  /** Every ledger and links file accountConfig names for an account exists after write_folders. */
  lemma {:induction false} WriteFoldersCoversConfig(d: Disk, accounts: seq<Account>, i: int)
    requires 0 <= i < |accounts|
    ensures var c := ConfigOf(accounts[i]);
      var r := WriteFolders(d, accounts);
      c.audioLinks in r && c.audioDb in r && c.videoLinks in r && c.videoDb in r
  {
    AllConfiguredFilesContains(accounts, accounts[i]);
  }

  lemma {:induction false} AllConfiguredFilesContains(accounts: seq<Account>, a: Account)
    requires a in accounts
    ensures ConfiguredFiles(a) <= AllConfiguredFiles(accounts)
    decreases |accounts|
  {
    var files := ConfiguredFiles(accounts[0]) + AllConfiguredFiles(accounts[1..]);
    assert AllConfiguredFiles(accounts) == files;
    if a != accounts[0] {
      assert a in accounts[1..];
      AllConfiguredFilesContains(accounts[1..], a);
    }
  }
}
