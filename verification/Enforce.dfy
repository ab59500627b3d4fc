/** Enforcement on disk: redacting a file in place behind a backup, or moving it to quarantine. */
module Enforce {
  import opened Wrappers
  import opened Disk
  import opened Detection
  import opened Rescanning
  import opened PathMatching
  import opened Policy

  const TEMP_PREFIX := ".pysetu-"
  /** How many names `mkstemp` tries. */
  const TMP_MAX := 10000

  // ----- writing a file atomically

  function TempName(path: string, token: string): string {
    Folder(path) + (TEMP_PREFIX + token + ".tmp")
  }

  predicate TempLike(path: string) {
    ".pysetu-" <= Base(path)
  }

  lemma TempNameIsTempLike(path: string, token: string)
    requires '/' !in token
    ensures TempLike(TempName(path, token))
  {
    hide Base;
    var name := TEMP_PREFIX + token + ".tmp";
    var folder := Folder(path);
    assert folder == [] || folder[|folder| - 1] == '/';
    BaseAfter(folder, name);
  }

  /** `path` is as before or has its complete new content, or a temporary file is being written beside it. */
  ghost predicate Replacing(state: Files, before: Files, path: string, content: Bytes) {
    || state == before
    || state == before[path := content]
    || exists temp :: TempLike(temp) && temp !in before && temp != path && PartWritten(state, before, temp, content)
  }

  /** One of the names that the n-th operation tries beside the path is not taken. */
  ghost predicate SomeFree(token: (nat, nat) -> string, n: nat, path: string, taken: set<string>) {
    exists attempt: nat :: attempt < TMP_MAX && TempName(path, token(n, attempt)) !in taken
  }

  /** Creates the temporary file, under the first free name, and writes the content to it. */
  method WriteTemp(fs: FileSystem, path: string, content: Bytes) returns (temp: Option<string>, ok: bool)
    requires fs.Valid()
    modifies fs`files, fs`past, fs`clock
    ensures fs.Valid() && old(fs.past) <= fs.past && old(fs.clock) <= fs.clock
    ensures temp.None? ==> !ok && fs.files == old(fs.files) && fs.past == old(fs.past)
    ensures temp.Some? ==>
              && TempLike(temp.value) && temp.value !in old(fs.files)
              && PartWritten(fs.files, old(fs.files), temp.value, content)
              && forall i :: |old(fs.past)| <= i < |fs.past| ==>
                   PartWritten(fs.past[i], old(fs.files), temp.value, content)
    ensures old(fs.clock) < fs.clock && (!ok && temp.Some? ==> fs.fails(fs.clock - 1))
    ensures ok ==> temp.Some? && temp.value !in fs.dirs && fs.files == old(fs.files)[temp.value := content]
    ensures ok <==> fs.Smooth(old(fs.clock)) && SomeFree(fs.token, old(fs.clock), path, old(fs.files).Keys + fs.dirs)
  {
    hide Base, TempLike, TempName;
    var n := fs.clock;
    ok := fs.Tick();
    if !ok {
      return None, false;
    }
    var attempt := 0;
    while attempt < TMP_MAX && fs.Exists(TempName(path, fs.token(n, attempt)))
      invariant attempt <= TMP_MAX
      invariant forall k: nat :: k < attempt ==> TempName(path, fs.token(n, k)) in fs.files.Keys + fs.dirs
    {
      attempt := attempt + 1;
    }
    if attempt == TMP_MAX {
      return None, false;
    }
    var name := TempName(path, fs.token(n, attempt));
    TempNameIsTempLike(path, fs.token(n, attempt));
    temp := Some(name);
    fs.Set(fs.files[name := []]);
    ghost var begun, began := fs.past, fs.clock;
    ok := fs.Fill(name, content);
    Filled(begun, fs.past, name, content, fs.clock - began - 1);
    forall i | |begun| <= i < |fs.past| ensures PartWritten(fs.past[i], old(fs.files), name, content) {
      Rewritten(fs.past[i], old(fs.files), name, [], content);
    }
  }

  /**
    Writes through a temporary file.  The rename is the only step that touches the
    path; the temporary file outlives the call only when its own removal failed too.
  */
  method AtomicWrite(fs: FileSystem, path: string, content: Bytes) returns (ok: bool)
    requires fs.Valid()
    modifies fs`files, fs`past, fs`clock
    ensures fs.Valid() && old(fs.past) <= fs.past && old(fs.clock) <= fs.clock
    ensures path in old(fs.files) || !TempLike(path) ==>
              forall i :: |old(fs.past)| <= i < |fs.past| ==> Replacing(fs.past[i], old(fs.files), path, content)
    ensures ok ==> fs.files == old(fs.files)[path := content]
    ensures ok <==>
              && fs.Smooth(old(fs.clock)) && path !in fs.dirs
              && SomeFree(fs.token, old(fs.clock), path, old(fs.files).Keys + fs.dirs)
    ensures !ok && fs.files != old(fs.files) ==>
              2 <= fs.clock && fs.fails(fs.clock - 1) && (path !in fs.dirs ==> fs.fails(fs.clock - 2))
    ensures !ok && path in old(fs.files) ==> path in fs.files && fs.files[path] == old(fs.files)[path]
  {
    hide Base, TempLike, Replacing, PartWritten, Renamed, SomeFree;
    var temp;
    temp, ok := WriteTemp(fs, path, content);
    if temp.None? {
      return;
    }
    ghost var before := old(fs.files);
    if path in before || !TempLike(path) {
      forall i | |old(fs.past)| <= i < |fs.past| ensures Replacing(fs.past[i], before, path, content) {
        TempReplacing(fs.past[i], before, path, temp.value, content);
      }
    }
    TempErased(fs.files, before, temp.value, content);
    TempRenamed(before, path, temp.value, content);
    if ok {
      ok := fs.Rename(temp.value, path);
    }
    if !ok {
      var removed := fs.Unlink(temp.value);
    }
  }

  lemma TempReplacing(state: Files, before: Files, path: string, temp: string, content: Bytes)
    requires TempLike(temp) && temp !in before && (path in before || !TempLike(path))
    requires PartWritten(state, before, temp, content)
    ensures Replacing(state, before, path, content)
  {
  }

  lemma TempErased(state: Files, before: Files, temp: string, content: Bytes)
    requires temp !in before && PartWritten(state, before, temp, content)
    ensures temp in state && state - {temp} == before
    ensures forall p :: p in before ==> p in state && state[p] == before[p]
  {
  }

  lemma TempRenamed(before: Files, path: string, temp: string, content: Bytes)
    requires temp !in before
    ensures Renamed(before[temp := content], temp, path) == before[path := content]
    ensures Replacing(before, before, path, content) && Replacing(before[path := content], before, path, content)
  {
    var after := Renamed(before[temp := content], temp, path);
    assert after.Keys == before.Keys + {path};
  }

  lemma Rewritten(state: Files, before: Files, path: string, first: Bytes, content: Bytes)
    requires PartWritten(state, before[path := first], path, content)
    ensures PartWritten(state, before, path, content)
  {
    assert before[path := first][path := state[path]] == before[path := state[path]];
  }

  // ----- copying and moving

  /** Where a file lands: inside the destination when that is a directory. */
  function Landing(dirs: set<string>, from: string, to: string): string {
    if to in dirs then Within(to, Base(from)) else to
  }

  lemma LandingIs(dirs: set<string>, parent: string, name: string, to: string)
    requires '/' !in name && to != "" && to[|to| - 1] != '/'
    ensures Landing(dirs, parent + "/" + name, to) == if to in dirs then to + "/" + name else to
  {
    BaseAfter(parent + "/", name);
  }

  /** From a certain state on, there is one in which the file at `place` has other content. */
  ghost predicate OtherAt(past: seq<Files>, from: nat, place: string, content: Bytes) {
    exists i :: from <= i < |past| && place in past[i] && past[i][place] != content
  }

  lemma NoneYet(past: seq<Files>)
    ensures forall place, content :: !OtherAt(past, |past|, place, content)
  {
  }

  lemma OtherAtBefore(older: seq<Files>, newer: seq<Files>, from: nat, place: string, content: Bytes)
    requires older <= newer
    requires forall i :: |older| <= i < |newer| ==> place in newer[i] && newer[i][place] == content
    ensures OtherAt(newer, from, place, content) <==> OtherAt(older, from, place, content)
  {
    if i :| from <= i < |older| && place in older[i] && older[i][place] != content {
      assert newer[i] == older[i];
    }
  }

  /** `shutil.copy2`: the content first, then the file's times; a file is not copied onto itself. */
  method Copy(fs: FileSystem, from: string, to: string) returns (ok: bool)
    requires fs.Valid() && from in fs.files
    modifies fs`files, fs`past, fs`clock
    ensures fs.Valid() && old(fs.past) <= fs.past && old(fs.clock) <= fs.clock
    ensures
      var landing := Landing(fs.dirs, from, to);
      && (landing == from ==> !ok && fs.past == old(fs.past) && fs.files == old(fs.files))
      && (forall i :: |old(fs.past)| <= i < |fs.past| ==>
            PartWritten(fs.past[i], old(fs.files), landing, old(fs.files)[from]))
      && (fs.files == old(fs.files) || PartWritten(fs.files, old(fs.files), landing, old(fs.files)[from]))
      && (ok ==> fs.files == old(fs.files)[landing := old(fs.files)[from]])
      && (ok <==> landing != from && landing !in fs.dirs && fs.Smooth(old(fs.clock)))
      && (OtherAt(fs.past, |old(fs.past)|, landing, old(fs.files)[from]) <==>
            && old(fs.files)[from] != [] && landing != from && landing !in fs.dirs
            && !fs.fails(old(fs.clock)) && !fs.fails(old(fs.clock) + 1))
  {
    hide Base;
    var landing := Landing(fs.dirs, from, to);
    if landing == from {
      return false;
    }
    var content;
    content, ok := fs.Read(from);
    if !ok {
      return;
    }
    ghost var begun, began := fs.past, fs.clock;
    ok := fs.Fill(landing, content);
    Filled(begun, fs.past, landing, content, fs.clock - began - 1);
    if ok {
      ok := fs.Tick();
    }
  }

  /** A move in progress: not begun, copied in part, copied, or done. */
  ghost predicate Moving(state: Files, before: Files, from: string, to: string)
    requires from in before
  {
    state == before || PartWritten(state, before, to, before[from]) || state == Renamed(before, from, to)
  }

  /** The place where a moved file lands is another one, and no directory or, inside a directory, file is there. */
  predicate Clear(files: Files, dirs: set<string>, from: string, to: string) {
    var landing := Landing(dirs, from, to);
    landing != from && landing !in dirs && (to in dirs ==> landing !in files)
  }

  /**
    `shutil.move`: a rename, or else a copy followed by the removal of the original.
    With a clear place it succeeds unless an operation after the rename fails.
  */
  method Move(fs: FileSystem, from: string, to: string) returns (ok: bool)
    requires fs.Valid() && from in fs.files && to != from
    modifies fs`files, fs`past, fs`clock
    ensures fs.Valid() && old(fs.past) <= fs.past && old(fs.clock) <= fs.clock
    ensures
      var landing := Landing(fs.dirs, from, to);
      && (forall i :: |old(fs.past)| <= i < |fs.past| ==> Moving(fs.past[i], old(fs.files), from, landing))
      && (ok ==> landing != from && fs.files == Renamed(old(fs.files), from, landing))
      && (!ok ==> from in fs.files && fs.files[from] == old(fs.files)[from])
      && (!ok ==> Moving(fs.files, old(fs.files), from, landing))
      && (landing == from ==> fs.past == old(fs.past))
      && (ok <==> Clear(old(fs.files), fs.dirs, from, to) && fs.Smooth(old(fs.clock) + 1))
      && (OtherAt(fs.past, |old(fs.past)|, landing, old(fs.files)[from]) <==>
            && old(fs.files)[from] != [] && Clear(old(fs.files), fs.dirs, from, to) && fs.fails(old(fs.clock))
            && !fs.fails(old(fs.clock) + 1) && !fs.fails(old(fs.clock) + 2))
  {
    hide Base, PartWritten, OtherAt;
    NoneYet(fs.past);
    var landing := Landing(fs.dirs, from, to);
    if to in fs.dirs && fs.Exists(landing) {
      return false;
    }
    ok := fs.Rename(from, landing);
    if ok {
      OtherAtBefore(old(fs.past), fs.past, |old(fs.past)|, landing, old(fs.files)[from]);
      return;
    }
    ok := Copy(fs, from, landing);
    ghost var copied := fs.past;
    PartWrittenKeeps(fs.files, old(fs.files), landing, old(fs.files)[from], from);
    CopiedThenRemoved(old(fs.files), from, landing);
    if ok {
      ok := fs.Unlink(from);
      OtherAtBefore(copied, fs.past, |old(fs.past)|, landing, old(fs.files)[from]);
    }
  }

  lemma PartWrittenKeeps(state: Files, before: Files, path: string, content: Bytes, other: string)
    requires state == before || PartWritten(state, before, path, content)
    requires other in before && other != path
    ensures other in state && state[other] == before[other]
  {
  }

  lemma CopiedThenRemoved(before: Files, from: string, to: string)
    requires from in before && from != to
    ensures before[to := before[from]] - {from} == Renamed(before, from, to)
    ensures PartWritten(before[to := before[from]], before, to, before[from])
  {
  }

  // ----- quarantine

  predicate Digits(s: string) {
    forall i :: 0 <= i < |s| ==> '0' <= s[i] <= '9'
  }

  /** The file's own name in the quarantine directory, or that name and a time stamp when it is taken. */
  function QuarantineName(files: Files, dirs: set<string>, path: string, dir: string, stamp: string): string {
    var target := Within(dir, Base(path));
    if target in files || target in dirs then Within(dir, Base(path) + "." + stamp) else target
  }

  lemma QuarantineNameDiffers(files: Files, dirs: set<string>, path: string, dir: string, stamp: string)
    requires path in files && Digits(stamp)
    ensures QuarantineName(files, dirs, path, dir, stamp) != path
  {
    hide Base, Within;
    var stamped := Base(path) + "." + stamp;
    assert |stamped| > |Base(path)| && '/' !in stamped;
    BaseWithin(dir, stamped);
  }

  method QuarantineFile(fs: FileSystem, path: string, dir: string, stamp: string) returns (target: Option<string>)
    requires fs.Valid() && path in fs.files && Digits(stamp)
    modifies fs
    ensures fs.Valid() && old(fs.past) <= fs.past && old(fs.clock) <= fs.clock
    ensures
      var before := old(fs.files);
      var name := QuarantineName(before, fs.dirs, path, dir, stamp);
      var landing := Landing(fs.dirs, path, name);
      && (target.Some? ==> target.value == name && landing != path && fs.files == Renamed(before, path, landing))
      && (target.None? ==>
            path in fs.files && fs.files[path] == before[path] && Moving(fs.files, before, path, landing))
      && (forall i :: |old(fs.past)| <= i < |fs.past| ==> Moving(fs.past[i], before, path, landing))
      && (landing == path ==> fs.past == old(fs.past))
      && (target.Some? <==>
            && !fs.fails(old(fs.clock)) && Above(dir) * before.Keys == {}
            && Clear(before, fs.dirs, path, name) && fs.Smooth(old(fs.clock) + 2))
      && (OtherAt(fs.past, |old(fs.past)|, landing, before[path]) <==>
            && before[path] != [] && !fs.fails(old(fs.clock)) && Above(dir) * before.Keys == {}
            && Clear(before, fs.dirs, path, name) && fs.fails(old(fs.clock) + 1)
            && !fs.fails(old(fs.clock) + 2) && !fs.fails(old(fs.clock) + 3))
  {
    hide Base, Within, Landing, PartWritten, Renamed, Clear, OtherAt;
    NoneYet(fs.past);
    var ok := fs.Makedirs(dir);
    if !ok {
      return None;
    }
    var name := Within(dir, Base(path));
    if fs.Exists(name) {
      name := Within(dir, Base(path) + "." + stamp);
    }
    QuarantineNameDiffers(fs.files, fs.dirs, path, dir, stamp);
    ok := Move(fs, path, name);
    target := if ok then Some(name) else None;
  }

  /** Some other file is gone or has other content. */
  ghost predicate Loses(before: Files, after: Files, path: string) {
    exists p :: p in before && p != path && (p !in after || after[p] != before[p])
  }

  lemma RenameLoses(before: Files, from: string, to: string)
    requires from in before && to != from
    ensures Loses(before, Renamed(before, from, to), from) <==> to in before && before[to] != before[from]
  {
    var after := Renamed(before, from, to);
    if to in before && before[to] != before[from] {
      assert to in after && after[to] != before[to];
    }
  }

  /**
    Quarantining loses another file exactly when the place it is moved to, which is
    then the stamped name, is taken by different content: that name is never checked.
  */
  lemma QuarantineLoses(files: Files, dirs: set<string>, path: string, dir: string, stamp: string)
    requires path in files && Digits(stamp)
    ensures
      var to := QuarantineName(files, dirs, path, dir, stamp);
      && (Loses(files, Renamed(files, path, to), path) <==> to in files && files[to] != files[path])
      && (to in files || to in dirs ==> to == Within(dir, Base(path) + "." + stamp))
      && (var own := Within(dir, Base(path)); own in files || own in dirs || to == own)
  {
    hide Base, Within, Loses;
    QuarantineNameDiffers(files, dirs, path, dir, stamp);
    RenameLoses(files, path, QuarantineName(files, dirs, path, dir, stamp));
  }

  /**
    Redacting loses another file exactly when the backup place holds different
    content, as it does when the same file was redacted before and has changed since.
  */
  lemma RedactionLoses(before: Files, path: string, backup: string, content: Bytes)
    requires path in before && backup != path
    ensures
      var after := before[backup := before[path]][path := content];
      Loses(before, after, path) <==> backup in before && before[backup] != before[path]
  {
    var after := before[backup := before[path]][path := content];
    if backup in before && before[backup] != before[path] {
      assert backup in after && after[backup] != before[backup];
    }
  }

  // ----- enforcing the policy on one file

  datatype Enforcer = Enforcer(
    shell: Shell,
    policy: LocalPolicy,
    detector: string -> ScanResult,
    decode: Bytes -> string,
    encode: string -> Bytes,
    backupSuffix: string,
    quarantineDir: string)

  datatype Report = Report(path: string, decision: string, action: string, backup: Option<string>, matchCount: nat)

  datatype Outcome = NoFindings | Reported(report: Report) | Raised

  /** What is decided for a file with this content. */
  datatype Verdict = Clean | Redact(content: Bytes) | Quarantine | Leave

  function Scan(e: Enforcer, content: Bytes): ScanResult {
    e.detector(e.decode(content))
  }

  function Decision(e: Enforcer, path: string, content: Bytes): string {
    Resolution(e.shell, e.policy.rules, path, Scan(e, content).classifications)
  }

  function Decide(e: Enforcer, path: string, content: Bytes): Verdict {
    var scan := Scan(e, content);
    if scan.classifications == [] then Clean
    else if Decision(e, path, content) == "redact" && scan.redacted.Some? then Redact(e.encode(scan.redacted.value))
    else if Decision(e, path, content) == "block" then Quarantine
    else Leave
  }

  /**
    With the program's own detector the text written in place of a file's is its
    text with disjoint stretches replaced by markers, but only up to the scan's
    limit: whatever lies behind that is dropped from the file.
  */
  lemma WrittenText(e: Enforcer, patterns: seq<Pattern>, limit: nat, path: string, content: Bytes)
    returns (pieces: seq<Piece>, dropped: string)
    requires AllWellBehaved(patterns)
    requires forall i :: 0 <= i < |patterns| ==> Respects(patterns[i])
    requires Scan(e, content) == Scanned(patterns, e.decode(content), limit)
    requires Decide(e, path, content).Redact?
    ensures Whole(pieces) && Decide(e, path, content).content == e.encode(Shown(pieces))
    ensures e.decode(content) == Original(pieces) + dropped
    ensures |dropped| == if |e.decode(content)| <= limit then 0 else |e.decode(content)| - limit
  {
    hide Original, Shown, Whole, Detection.Redact, Respects, Resolution;
    var text := e.decode(content);
    pieces := RedactionReplacesSpans(patterns, Truncate(text, limit));
    dropped := if |text| <= limit then "" else text[limit..];
  }

  /** And in that text a plain pattern finds nothing any more, whatever the others are. */
  lemma WrittenClean(e: Enforcer, patterns: seq<Pattern>, limit: nat, path: string, content: Bytes)
    returns (text: string)
    requires AllWellBehaved(patterns) && AllFenced(patterns)
    requires Scan(e, content) == Scanned(patterns, e.decode(content), limit)
    requires Decide(e, path, content).Redact?
    ensures Decide(e, path, content).content == e.encode(text)
    ensures forall k, shape :: 0 <= k < |patterns| && Searches(patterns[k], shape) && KeepsOff(shape) ==>
              patterns[k].find(text) == []
  {
    hide Detection.Redact, Resolution, AllFenced, Searches, KeepsOff;
    var scanned := Truncate(e.decode(content), limit);
    text := Detection.Redact(patterns, scanned);
    forall k, shape | 0 <= k < |patterns| && Searches(patterns[k], shape) && KeepsOff(shape)
      ensures patterns[k].find(text) == []
    {
      NothingLeft(patterns, scanned, k, shape);
    }
  }

  /** What is decided, told by what is found in the file's text and what the policy says of it. */
  lemma VerdictIs(e: Enforcer, path: string, content: Bytes)
    ensures
      var scan := e.detector(e.decode(content));
      var action := Resolution(e.shell, e.policy.rules, path, scan.classifications);
      var verdict := Decide(e, path, content);
      && (verdict == Clean <==> scan.classifications == [])
      && (verdict == Quarantine <==> scan.classifications != [] && action == "block")
      && (forall written :: verdict == Redact(written) <==>
            && scan.classifications != [] && action == "redact"
            && scan.redacted.Some? && written == e.encode(scan.redacted.value))
  {
    hide Resolution;
  }

  function Backup(e: Enforcer, dirs: set<string>, path: string): string {
    Landing(dirs, path, path + e.backupSuffix)
  }

  /**
    The file's own content is not lost: the path, if it is there, has its complete
    old or its complete new content, and the old content is complete at the path or
    at the spare place.  Every other file but the one at the spare place is as it was,
    and none is new but the spare copy and temporary files.
  */
  ghost predicate Safe(state: Files, before: Files, path: string, new_: Bytes, spare: string)
    requires path in before
  {
    && (path in state ==> state[path] == before[path] || state[path] == new_)
    && ((path in state && state[path] == before[path]) || (spare in state && state[spare] == before[path]))
    && (forall p :: p in before && p != path && p != spare ==> p in state && state[p] == before[p])
    && (forall p :: p in state && p !in before ==> p == spare || TempLike(p))
  }

  lemma BackingUpSafe(state: Files, before: Files, path: string, new_: Bytes, backup: string)
    requires path in before && backup != path && PartWritten(state, before, backup, before[path])
    ensures Safe(state, before, path, new_, backup)
  {
  }

  lemma ReplacingSafe(state: Files, before: Files, path: string, new_: Bytes, backup: string)
    requires path in before && backup != path
    requires Replacing(state, before[backup := before[path]], path, new_)
    ensures Safe(state, before, path, new_, backup)
  {
    hide Base, TempLike;
  }

  lemma ReplacingKeeps(state: Files, before: Files, path: string, content: Bytes, other: string)
    requires Replacing(state, before, path, content) && other in before && other != path
    ensures other in state && state[other] == before[other]
  {
    hide Base, TempLike;
  }

  lemma MovingSafe(state: Files, before: Files, path: string, target: string)
    requires path in before && target != path && Moving(state, before, path, target)
    ensures Safe(state, before, path, before[path], target)
  {
  }

  /** The redacting branch. */
  method RedactFile(fs: FileSystem, path: string, backupSuffix: string, content: Bytes) returns (ok: bool)
    requires fs.Valid() && path in fs.files
    modifies fs`files, fs`past, fs`clock
    ensures fs.Valid() && old(fs.past) <= fs.past && old(fs.clock) <= fs.clock
    ensures
      var before := old(fs.files);
      var backup := Landing(fs.dirs, path, path + backupSuffix);
      && (forall i :: |old(fs.past)| <= i < |fs.past| ==> Safe(fs.past[i], before, path, content, backup))
      && (ok ==> backup != path && fs.files == before[backup := before[path]][path := content])
      && (!ok ==> path in fs.files && fs.files[path] == before[path])
      && (!ok ==>
            || fs.files == before || PartWritten(fs.files, before, backup, before[path])
            || (2 <= fs.clock && fs.fails(fs.clock - 2) && fs.fails(fs.clock - 1)))
      && (ok ==> fs.Smooth(old(fs.clock)) && backup !in fs.dirs)
      && ((&& fs.Smooth(old(fs.clock)) && backup != path && backup !in fs.dirs
           && (forall n: nat :: SomeFree(fs.token, n, path, before.Keys + {backup} + fs.dirs)))
          ==> ok)
      && (OtherAt(fs.past, |old(fs.past)|, backup, before[path]) <==>
            && before[path] != [] && backup != path && backup !in fs.dirs
            && !fs.fails(old(fs.clock)) && !fs.fails(old(fs.clock) + 1))
  {
    hide Base, TempLike, PartWritten, Replacing, Safe, SomeFree, OtherAt;
    ghost var before := fs.files;
    var backup := Landing(fs.dirs, path, path + backupSuffix);
    ok := Copy(fs, path, path + backupSuffix);
    if backup != path {
      forall i | |old(fs.past)| <= i < |fs.past| ensures Safe(fs.past[i], before, path, content, backup) {
        BackingUpSafe(fs.past[i], before, path, content, backup);
      }
      PartWrittenKeeps(fs.files, before, backup, before[path], path);
    }
    if !ok {
      return;
    }
    CopiedThenRemoved(before, path, backup);
    ghost var copied := fs.past;
    assert fs.files.Keys + fs.dirs == before.Keys + {backup} + fs.dirs;
    ok := AtomicWrite(fs, path, content);
    forall i | |copied| <= i < |fs.past|
      ensures Safe(fs.past[i], before, path, content, backup)
      ensures backup in fs.past[i] && fs.past[i][backup] == before[path]
    {
      ReplacingSafe(fs.past[i], before, path, content, backup);
      ReplacingKeeps(fs.past[i], before[backup := before[path]], path, content, backup);
    }
    OtherAtBefore(copied, fs.past, |old(fs.past)|, backup, before[path]);
  }

  /**
    Whatever fails, and wherever the process is stopped, the file's own content is
    not lost, and an exception leaves the file itself as it was, with no temporary
    file behind unless two operations in a row have failed, the second being its
    removal.  Not so the spare place: what a backup place held before is lost when it
    was different, and a process stopped while the backup is written leaves a part of it.
  */
  method EnforceFile(fs: FileSystem, e: Enforcer, path: string, stamp: string) returns (o: Outcome)
    requires fs.Valid() && Digits(stamp)
    modifies fs
    ensures fs.Valid() && old(fs.past) <= fs.past && old(fs.clock) <= fs.clock
    ensures path !in old(fs.files) ==> o == NoFindings && fs.past == old(fs.past)
    ensures path in old(fs.files) ==>
      var before := old(fs.files);
      var content := before[path];
      var verdict := Decide(e, path, content);
      var backup := Backup(e, fs.dirs, path);
      var name := QuarantineName(before, fs.dirs, path, e.quarantineDir, stamp);
      var landing := Landing(fs.dirs, path, name);
      var matches := Scan(e, content).matchCount;
      && (o == NoFindings <==> fs.fails(old(fs.clock)) || verdict == Clean)
      && (o == NoFindings ==> fs.past == old(fs.past))
      && (o == Raised ==> path in fs.files && fs.files[path] == content)
      && (verdict.Redact? ==>
            && (forall i :: |old(fs.past)| <= i < |fs.past| ==>
                  Safe(fs.past[i], before, path, verdict.content, backup))
            && (o == Raised ==>
                  || fs.files == before || PartWritten(fs.files, before, backup, content)
                  || (2 <= fs.clock && fs.fails(fs.clock - 2) && fs.fails(fs.clock - 1)))
            && (o.Reported? ==>
                  && fs.files == before[backup := content][path := verdict.content] && backup != path
                  && o.report == Report(path, "redact", "redacted", Some(path + e.backupSuffix), matches))
            && (o.Reported? ==> fs.Smooth(old(fs.clock)) && backup !in fs.dirs)
            && ((&& fs.Smooth(old(fs.clock)) && !fs.fails(old(fs.clock)) && backup != path && backup !in fs.dirs
                 && (forall n: nat :: SomeFree(fs.token, n, path, before.Keys + {backup} + fs.dirs)))
                ==> o.Reported?)
            && (o.Reported? ==> (Loses(before, fs.files, path) <==> backup in before && before[backup] != content))
            && (OtherAt(fs.past, |old(fs.past)|, backup, content) <==>
                  && content != [] && backup != path && backup !in fs.dirs && !fs.fails(old(fs.clock))
                  && !fs.fails(old(fs.clock) + 1) && !fs.fails(old(fs.clock) + 2)))
      && (verdict == Quarantine ==>
            && (forall i :: |old(fs.past)| <= i < |fs.past| ==> Safe(fs.past[i], before, path, content, landing))
            && (o.Reported? ==>
                  && fs.files == Renamed(before, path, landing) && landing != path
                  && o.report == Report(path, "block", "quarantined", Some(name), matches))
            && (o.Reported? ==> (Loses(before, fs.files, path) <==> landing in before && before[landing] != content))
            && (o.Reported? <==>
                  && !fs.fails(old(fs.clock)) && !fs.fails(old(fs.clock) + 1)
                  && Above(e.quarantineDir) * before.Keys == {}
                  && Clear(before, fs.dirs, path, name) && fs.Smooth(old(fs.clock) + 3))
            && (OtherAt(fs.past, |old(fs.past)|, landing, content) <==>
                  && content != [] && !fs.fails(old(fs.clock)) && !fs.fails(old(fs.clock) + 1)
                  && Above(e.quarantineDir) * before.Keys == {} && Clear(before, fs.dirs, path, name)
                  && fs.fails(old(fs.clock) + 2) && !fs.fails(old(fs.clock) + 3) && !fs.fails(old(fs.clock) + 4)))
      && (verdict == Leave ==>
            && fs.past == old(fs.past)
            && (o.Reported? <==> !fs.fails(old(fs.clock)))
            && (o.Reported? ==> o.report == Report(path, Decision(e, path, content), "none", None, matches)))
  {
    hide Base, TempLike, PartWritten, Replacing, Safe, Moving, Resolution, Clear, SomeFree, OtherAt, Loses;
    NoneYet(fs.past);
    var content, ok := fs.Read(path);
    if !ok {
      return NoFindings;
    }
    var scan := e.detector(e.decode(content));
    if scan.classifications == [] {
      return NoFindings;
    }
    var decision := Resolution(e.shell, e.policy.rules, path, scan.classifications);
    if decision == "redact" && scan.redacted.Some? {
      ok := RedactFile(fs, path, e.backupSuffix, e.encode(scan.redacted.value));
      ghost var backup := Backup(e, fs.dirs, path);
      if backup != path { RedactionLoses(old(fs.files), path, backup, e.encode(scan.redacted.value)); }
      return if ok
             then Reported(Report(path, decision, "redacted", Some(path + e.backupSuffix), scan.matchCount))
             else Raised;
    }
    if decision == "block" {
      var target := QuarantineFile(fs, path, e.quarantineDir, stamp);
      ghost var name := QuarantineName(old(fs.files), fs.dirs, path, e.quarantineDir, stamp);
      forall i | |old(fs.past)| <= i < |fs.past|
        ensures Safe(fs.past[i], old(fs.files), path, content, Landing(fs.dirs, path, name))
      {
        MovingSafe(fs.past[i], old(fs.files), path, Landing(fs.dirs, path, name));
      }
      if Landing(fs.dirs, path, name) != path { RenameLoses(old(fs.files), path, Landing(fs.dirs, path, name)); }
      return if target.None? then Raised
             else Reported(Report(path, decision, "quarantined", target, scan.matchCount));
    }
    return Reported(Report(path, decision, "none", None, scan.matchCount));
  }
}
