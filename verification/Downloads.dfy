/** The temporary files of the fetch branch of proj2/ss.c: a stone lets wget write `file_<socket>.tmp`
    in its directory, maps the file, sends it and removes it. */
module Downloads {
  import opened Bytes

  type Content = seq<byte>

  // ---------------------------------------------------------------- the command

  /** What wget gets for a URL, and whether it still runs when only so many characters of its last
      option have arrived. */
  datatype Web = Web(content: string -> Content, copes: nat -> bool)

  const COMMAND_ROOM := 255

  function Decimal(n: nat): string {
    (if n < 10 then "" else Decimal(n / 10)) + [(n % 10 + '0' as int) as char]
  }

  /** The command up to the name of the output file, and its last option. */
  function Command(url: string, socket: nat): string {
    "wget " + url + " --output-document=file_" + Decimal(socket) + ".tmp"
  }

  const QUIET := " --quiet"

  /** `snprintf` cuts the command at the size of its buffer. wget writes the file if the name is whole,
      and the option behind it whole or cut where wget copes with it. */
  predicate Ordered(f: Fetcher, web: Web) {
    var named := |Command(f.url, f.file.socket)|;
    named <= COMMAND_ROOM && (named + |QUIET| <= COMMAND_ROOM || web.copes(COMMAND_ROOM - named))
  }

  /** The number that decimal digits stand for. */
  function Number(digits: string): int {
    if digits == "" then 0 else 10 * Number(digits[..|digits| - 1]) + (digits[|digits| - 1] as int - '0' as int)
  }

  /** A number is printed in decimal digits without a leading zero, so that different sockets give
      different file names. */
  lemma {:induction false} DecimalReadBack(n: nat)
    ensures Number(Decimal(n)) == n && Decimal(n) != ""
    ensures forall c | c in Decimal(n) :: '0' <= c <= '9'
    ensures Decimal(n)[0] == '0' ==> n == 0 && |Decimal(n)| == 1
  {
    if n >= 10 {
      DecimalReadBack(n / 10);
      assert Decimal(n)[..|Decimal(n)| - 1] == Decimal(n / 10);
    } else {
      assert Decimal(n) == [(n + '0' as int) as char] && Decimal(n)[..0] == "";
    }
  }

  /** The command in numbers: it is whole up to 214 characters of URL and number together, beyond 222 the
      file name is cut, and in between wget gets a shortened last option. */
  lemma OrderedIff(f: Fetcher, web: Web)
    ensures var length := |f.url| + |Decimal(f.file.socket)|;
      Ordered(f, web) <==> length <= 214 || (length <= 222 && web.copes(222 - length))
  {
  }

  // ---------------------------------------------------------------- the steps

  /** The directory a stone runs in and the number of the socket it serves. */
  datatype FileName = FileName(dir: nat, socket: nat)

  /** `Unmappable`: the file is empty, so mapping fails and the stone returns, leaving the file.
      `Failed`: there is no file to open. */
  datatype Stage = Started | Downloaded | Mapped(data: Content) | Removed | Unmappable | Failed

  datatype Fetcher = Fetcher(file: FileName, url: string, stage: Stage)
  {
    /** Between the download and the removal of the file. */
    predicate Between() {
      stage.Downloaded? || stage.Mapped?
    }

    predicate Finished() {
      stage.Removed? || stage.Unmappable? || stage.Failed?
    }
  }

  datatype Disk = Disk(files: map<FileName, Content>, fetchers: seq<Fetcher>)

  /** One step of fetcher `i`. Nothing checks whether wget has written the file. */
  function DiskStep(d: Disk, i: nat, web: Web): (r: Disk)
    requires i < |d.fetchers|
    ensures |r.fetchers| == |d.fetchers|
    ensures forall j | 0 <= j < |d.fetchers| && j != i :: r.fetchers[j] == d.fetchers[j]
    ensures r.fetchers[i] == d.fetchers[i].(stage := r.fetchers[i].stage)
  {
    var f := d.fetchers[i];
    match f.stage
    case Started =>
      Disk(if Ordered(f, web) then d.files[f.file := web.content(f.url)] else d.files,
           d.fetchers[i := f.(stage := Downloaded)])
    case Downloaded =>
      var next := if f.file !in d.files then Failed
                  else if d.files[f.file] == [] then Unmappable
                  else Mapped(d.files[f.file]);
      d.(fetchers := d.fetchers[i := f.(stage := next)])
    case Mapped(_) => Disk(d.files - {f.file}, d.fetchers[i := f.(stage := Removed)])
    case _ => d
  }

  predicate Valid(d: Disk, schedule: seq<nat>) {
    forall k | 0 <= k < |schedule| :: schedule[k] < |d.fetchers|
  }

  function DiskRun(d: Disk, schedule: seq<nat>, web: Web): (r: Disk)
    requires Valid(d, schedule)
    decreases |schedule|
  {
    if schedule == [] then d else DiskRun(DiskStep(d, schedule[0], web), schedule[1..], web)
  }

  // ---------------------------------------------------------------- whose file is mapped

  /** Nobody fails or maps anything but what wget got for its own URL. */
  ghost predicate Own(d: Disk, web: Web) {
    forall i | 0 <= i < |d.fetchers| :: FetcherOwn(d, d.fetchers[i], web)
  }

  ghost predicate FetcherOwn(d: Disk, f: Fetcher, web: Web) {
    && (f.stage.Downloaded? ==> f.file in d.files && d.files[f.file] == web.content(f.url))
    && (f.stage.Mapped? ==> f.stage.data == web.content(f.url) != [])
    && (f.stage.Unmappable? ==> web.content(f.url) == [])
    && !f.stage.Failed?
  }

  /** Who has ordered its file gets it; who has not maps nothing. */
  ghost predicate FetcherSafe(d: Disk, f: Fetcher, web: Web) {
    if Ordered(f, web) then FetcherOwn(d, f, web) else !f.stage.Mapped?
  }

  ghost predicate Safe(d: Disk, web: Web) {
    forall i | 0 <= i < |d.fetchers| :: FetcherSafe(d, d.fetchers[i], web)
  }

  /** Two fetchers use the same file, and it matters: empty files are never mapped nor removed. */
  predicate Clash(f: Fetcher, g: Fetcher, web: Web) {
    f.file == g.file && (web.content(f.url) != [] || web.content(g.url) != [])
  }

  /** No two fetchers between download and removal clash. */
  ghost predicate Exclusive(d: Disk, web: Web) {
    forall i, j | 0 <= i < j < |d.fetchers| && d.fetchers[i].Between() && d.fetchers[j].Between() ::
      !Clash(d.fetchers[i], d.fetchers[j], web)
  }

  /** Nobody between download and removal clashes with fetcher `i`. */
  ghost predicate Clear(d: Disk, i: nat, web: Web)
    requires i < |d.fetchers|
  {
    forall j | 0 <= j < |d.fetchers| && j != i && d.fetchers[j].Between() :: !Clash(d.fetchers[i], d.fetchers[j], web)
  }

  /** A file that is not empty is there because someone between download and removal ordered it. */
  ghost predicate Covered(d: Disk, name: FileName, web: Web) {
    name in d.files && d.files[name] != [] ==> exists j: nat :: Holder(d, j, name, web)
  }

  predicate Holder(d: Disk, j: nat, name: FileName, web: Web) {
    && j < |d.fetchers| && d.fetchers[j].Between() && d.fetchers[j].file == name && Ordered(d.fetchers[j], web)
  }

  ghost predicate AllCovered(d: Disk, web: Web) {
    forall i | 0 <= i < |d.fetchers| :: Covered(d, d.fetchers[i].file, web)
  }

  lemma DiskStepKeepsExclusive(d: Disk, i: nat, web: Web)
    requires Exclusive(d, web) && i < |d.fetchers|
    requires d.fetchers[i].stage.Started? ==> Clear(d, i, web)
    ensures Exclusive(DiskStep(d, i, web), web)
  {
  }

  lemma DiskStepKeepsCovered(d: Disk, i: nat, name: FileName, web: Web)
    requires Safe(d, web) && i < |d.fetchers| && Covered(d, name, web)
    ensures Covered(DiskStep(d, i, web), name, web)
  {
    var r := DiskStep(d, i, web);
    if name in r.files && r.files[name] != [] {
      if d.fetchers[i].stage.Started? && d.fetchers[i].file == name && Ordered(d.fetchers[i], web) {
        assert Holder(r, i, name, web);
      } else {
        var j: nat :| Holder(d, j, name, web);
        assert FetcherSafe(d, d.fetchers[j], web);
        assert Holder(r, j, name, web);
      }
    }
  }

  /** Who has not ordered its file finds none, or an empty one. */
  lemma NothingToMap(d: Disk, i: nat, web: Web)
    requires Safe(d, web) && Exclusive(d, web) && i < |d.fetchers| && Covered(d, d.fetchers[i].file, web)
    requires d.fetchers[i].stage.Downloaded? && !Ordered(d.fetchers[i], web)
    ensures d.fetchers[i].file in d.files ==> d.files[d.fetchers[i].file] == []
  {
    var f := d.fetchers[i];
    forall k: nat | Holder(d, k, f.file, web) ensures f.file in d.files ==> d.files[f.file] == [] {
      assert FetcherSafe(d, d.fetchers[k], web);
      assert !Clash(f, d.fetchers[k], web);
    }
  }

  lemma DiskStepKeepsSafe(d: Disk, i: nat, web: Web)
    requires Safe(d, web) && Exclusive(d, web) && i < |d.fetchers| && Covered(d, d.fetchers[i].file, web)
    requires d.fetchers[i].stage.Started? ==> Clear(d, i, web)
    ensures Safe(DiskStep(d, i, web), web)
  {
    var r := DiskStep(d, i, web);
    var f := d.fetchers[i];
    assert FetcherSafe(d, f, web);
    forall j | 0 <= j < |r.fetchers| ensures FetcherSafe(r, r.fetchers[j], web) {
      assert FetcherSafe(d, d.fetchers[j], web);
      if j != i && d.fetchers[j].stage.Downloaded? && f.Between() {
        assert !Clash(f, d.fetchers[j], web);
      }
      if j == i && f.stage.Downloaded? && !Ordered(f, web) {
        NothingToMap(d, i, web);
      }
    }
  }

  /** A fetch starts only while no clashing fetch is between download and removal. */
  ghost predicate Spaced(d: Disk, schedule: seq<nat>, web: Web)
    requires Valid(d, schedule)
    decreases |schedule|
  {
    schedule == [] ||
    (&& (d.fetchers[schedule[0]].stage.Started? ==> Clear(d, schedule[0], web))
     && Spaced(DiskStep(d, schedule[0], web), schedule[1..], web))
  }

  /** Fetches that are spaced out are independent, also where they use the same socket number one
      after the other: everybody whose command is not cut maps what wget got for its own URL, and
      everybody else maps nothing. */
  lemma {:induction false} SpacedFetchesAreSafe(d: Disk, schedule: seq<nat>, web: Web)
    requires Safe(d, web) && Exclusive(d, web) && AllCovered(d, web) && Valid(d, schedule) && Spaced(d, schedule, web)
    ensures Safe(DiskRun(d, schedule, web), web) && Exclusive(DiskRun(d, schedule, web), web)
    ensures |DiskRun(d, schedule, web).fetchers| == |d.fetchers|
    ensures forall i | 0 <= i < |d.fetchers| :: DiskRun(d, schedule, web).fetchers[i].url == d.fetchers[i].url
                                             && DiskRun(d, schedule, web).fetchers[i].file == d.fetchers[i].file
    decreases |schedule|
  {
    if schedule != [] {
      var i, r := schedule[0], DiskStep(d, schedule[0], web);
      DiskStepKeepsExclusive(d, i, web);
      DiskStepKeepsSafe(d, i, web);
      forall j | 0 <= j < |r.fetchers| ensures Covered(r, r.fetchers[j].file, web) {
        DiskStepKeepsCovered(d, i, d.fetchers[j].file, web);
      }
      SpacedFetchesAreSafe(r, schedule[1..], web);
    }
  }

  ghost predicate NoClash(d: Disk, web: Web) {
    forall i, j | 0 <= i < j < |d.fetchers| :: !Clash(d.fetchers[i], d.fetchers[j], web)
  }

  ghost predicate AllOrdered(d: Disk, web: Web) {
    forall i | 0 <= i < |d.fetchers| :: Ordered(d.fetchers[i], web)
  }

  lemma {:induction false} NoClashIsSpaced(d: Disk, schedule: seq<nat>, web: Web)
    requires NoClash(d, web) && Valid(d, schedule)
    ensures Spaced(d, schedule, web)
    decreases |schedule|
  {
    if schedule != [] {
      var r := DiskStep(d, schedule[0], web);
      forall i, j | 0 <= i < j < |r.fetchers| ensures !Clash(r.fetchers[i], r.fetchers[j], web) {
        assert !Clash(d.fetchers[i], d.fetchers[j], web);
      }
      NoClashIsSpaced(r, schedule[1..], web);
    }
  }

  lemma FirstStep(d: Disk, a: nat, rest: seq<nat>, web: Web)
    requires a < |d.fetchers| && Valid(d, rest)
    ensures Valid(d, [a] + rest) && DiskRun(d, [a] + rest, web) == DiskRun(DiskStep(d, a, web), rest, web)
  {
    assert ([a] + rest)[1..] == rest;
  }

  /** Two clashing fetchers have a schedule that goes wrong: both download, and the one whose file is
      then overwritten maps the other's file and removes it, or finds it empty. */
  lemma LosingSchedule(d: Disk, i: nat, j: nat, web: Web) returns (schedule: seq<nat>)
    requires i < |d.fetchers| && j < |d.fetchers| && i != j && Clash(d.fetchers[i], d.fetchers[j], web)
    requires d.fetchers[i].stage.Started? && d.fetchers[j].stage.Started?
    requires Ordered(d.fetchers[i], web) && Ordered(d.fetchers[j], web)
    ensures Valid(d, schedule) && !Own(DiskRun(d, schedule, web), web)
  {
    var d1 := DiskStep(d, i, web);
    var d2 := DiskStep(d1, j, web);
    var d3 := DiskStep(d2, i, web);
    if web.content(d.fetchers[j].url) == [] {
      schedule := [i] + ([j] + ([i] + []));
      FirstStep(d2, i, [], web);
      FirstStep(d1, j, [i] + [], web);
      FirstStep(d, i, [j] + ([i] + []), web);
      assert !FetcherOwn(d3, d3.fetchers[i], web);
    } else {
      var d4 := DiskStep(d3, i, web);
      var d5 := DiskStep(d4, j, web);
      schedule := [i] + ([j] + ([i] + ([i] + ([j] + []))));
      FirstStep(d4, j, [], web);
      FirstStep(d3, i, [j] + [], web);
      FirstStep(d2, i, [i] + ([j] + []), web);
      FirstStep(d1, j, [i] + ([i] + ([j] + [])), web);
      FirstStep(d, i, [j] + ([i] + ([i] + ([j] + []))), web);
      assert !FetcherOwn(d5, d5.fetchers[j], web);
    }
  }

  /** A fetcher whose command is cut finds no file. */
  lemma CutCommandFails(d: Disk, i: nat, web: Web)
    requires i < |d.fetchers| && d.fetchers[i].stage.Started? && d.fetchers[i].file !in d.files && !Ordered(d.fetchers[i], web)
    ensures Valid(d, [i, i]) && DiskRun(d, [i, i], web) == DiskStep(DiskStep(d, i, web), i, web)
    ensures DiskStep(DiskStep(d, i, web), i, web).fetchers[i].stage == Failed
  {
    var d1 := DiskStep(d, i, web);
    assert [i, i] == [i] + ([i] + []);
    FirstStep(d1, i, [], web);
    FirstStep(d, i, [i] + [], web);
  }

  lemma OrderedAndSpacedIsOwn(d: Disk, schedule: seq<nat>, web: Web)
    requires forall i | 0 <= i < |d.fetchers| :: d.fetchers[i].stage.Started? && d.fetchers[i].file !in d.files
    requires NoClash(d, web) && AllOrdered(d, web) && Valid(d, schedule)
    ensures Own(DiskRun(d, schedule, web), web)
  {
    NoClashIsSpaced(d, schedule, web);
    SpacedFetchesAreSafe(d, schedule, web);
    var r := DiskRun(d, schedule, web);
    forall i | 0 <= i < |r.fetchers| ensures FetcherOwn(r, r.fetchers[i], web) {
      assert FetcherSafe(r, r.fetchers[i], web) && Ordered(d.fetchers[i], web);
    }
  }

  /** For fetchers about to start, with none of their files on disk: in every interleaving everybody
      maps its own file, if and only if no two of them have a file name in common (other than for
      files that are both empty) and no command is cut. */
  lemma FetchesAreIndependentIff(d: Disk, web: Web)
    requires forall i | 0 <= i < |d.fetchers| :: d.fetchers[i].stage.Started? && d.fetchers[i].file !in d.files
    ensures (forall schedule: seq<nat> | Valid(d, schedule) :: Own(DiskRun(d, schedule, web), web))
       <==> NoClash(d, web) && AllOrdered(d, web)
  {
    if i :| 0 <= i < |d.fetchers| && !Ordered(d.fetchers[i], web) {
      CutCommandFails(d, i, web);
      var r := DiskRun(d, [i, i], web);
      assert !FetcherOwn(r, r.fetchers[i], web);
    } else if i, j :| 0 <= i < j < |d.fetchers| && Clash(d.fetchers[i], d.fetchers[j], web) {
      var schedule := LosingSchedule(d, i, j, web);
      assert !Own(DiskRun(d, schedule, web), web);
    } else {
      forall schedule: seq<nat> | Valid(d, schedule) ensures Own(DiskRun(d, schedule, web), web) {
        OrderedAndSpacedIsOwn(d, schedule, web);
      }
    }
  }
}
