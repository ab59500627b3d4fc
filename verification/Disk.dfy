/** A file system whose operations may fail, and which remembers every state it has been in. */
module Disk {
  type Bytes = seq<bv8>
  type Files = map<string, Bytes>

  /** A part after the last slash: it ends the path, holds no slash, and follows one or is everything. */
  predicate IsBase(path: string, b: string) {
    && |b| <= |path| && b == path[|path| - |b|..] && '/' !in b
    && (|b| < |path| ==> path[|path| - |b| - 1] == '/')
  }

  /** The part of a path after its last slash. */
  function Base(path: string): (b: string)
    ensures IsBase(path, b)
  {
    if path == [] || path[|path| - 1] == '/' then []
    else Base(path[..|path| - 1]) + [path[|path| - 1]]
  }

  /** The part of a path up to and including its last slash. */
  function Folder(path: string): string {
    path[..|path| - |Base(path)|]
  }

  /** `os.path.join` of a directory and a name. */
  function Within(dir: string, name: string): string {
    if dir == [] || dir[|dir| - 1] == '/' then dir + name else dir + "/" + name
  }

  lemma SuffixesAgree(path: string, b: string, other: string)
    requires |b| <= |path| && |other| <= |path| && other == path[|path| - |other|..]
    ensures |b| < |other| ==> other[|other| - |b| - 1] == path[|path| - |b| - 1]
  {
  }

  lemma NoLonger(path: string, b: string, other: string)
    requires IsBase(path, b) && IsBase(path, other)
    ensures |other| <= |b|
  {
    SuffixesAgree(path, b, other);
  }

  /** A name put after a directory is the base of the result. */
  lemma BaseAfter(dir: string, name: string)
    requires (dir == [] || dir[|dir| - 1] == '/') && '/' !in name
    ensures Base(dir + name) == name
  {
    hide Base;
    assert (dir + name)[|dir|..] == name;
    NoLonger(dir + name, Base(dir + name), name);
    NoLonger(dir + name, name, Base(dir + name));
  }

  lemma BaseWithin(dir: string, name: string)
    requires '/' !in name
    ensures Base(Within(dir, name)) == name
  {
    BaseAfter(if dir == [] || dir[|dir| - 1] == '/' then dir else dir + "/", name);
  }

  /** One file of `before` holds the first part of `content`, and nothing else has changed. */
  predicate PartWritten(state: Files, before: Files, path: string, content: Bytes) {
    path in state && state[path] <= content && state == before[path := state[path]]
  }

  /** The first `n` states of a file being written: opened empty, then one byte longer each time. */
  function Stages(before: Files, path: string, content: Bytes, n: nat): (stages: seq<Files>)
    requires n <= |content| + 1
    ensures |stages| == n
  {
    if n == 0 then [] else Stages(before, path, content, n - 1) + [before[path := content[..n - 1]]]
  }

  lemma {:induction false} StagesWritten(before: Files, path: string, content: Bytes, n: nat)
    requires n <= |content| + 1
    ensures forall i :: 0 <= i < n ==>
              && Stages(before, path, content, n)[i] == before[path := content[..i]]
              && PartWritten(Stages(before, path, content, n)[i], before, path, content)
  {
    if n > 0 { StagesWritten(before, path, content, n - 1); }
  }

  /** What the history of a disk shows while a file is written on it. */
  lemma Filled(older: seq<Files>, newer: seq<Files>, path: string, content: Bytes, n: nat)
    requires older != [] && n <= |content| + 1
    requires newer == older + Stages(older[|older| - 1], path, content, n)
    ensures
      var before, after := older[|older| - 1], newer[|newer| - 1];
      && (forall i :: |older| <= i < |newer| ==> PartWritten(newer[i], before, path, content))
      && (after == before || PartWritten(after, before, path, content))
      && (n > 0 ==> newer[|older|] == before[path := []])
      && (n == |content| + 1 ==> after == before[path := content])
  {
    hide PartWritten, Stages;
    StagesWritten(older[|older| - 1], path, content, n);
    assert content[..0] == [] && content[..|content|] == content;
  }

  /** `before` with one file renamed over another. */
  function Renamed(before: Files, from: string, to: string): Files
    requires from in before
  {
    (before - {from})[to := before[from]]
  }

  /** A directory and those it lies in. */
  function Above(dir: string): set<string> {
    (set i | 0 < i < |dir| && dir[i] == '/' :: dir[..i]) + {dir}
  }

  /** Those are the directory and every non-empty beginning of it that a slash follows. */
  lemma AboveIs(dir: string, d: string)
    ensures d in Above(dir) <==> d == dir || (d != "" && |d| < |dir| && dir[..|d| + 1] == d + "/")
  {
    if d != "" && |d| < |dir| && dir[..|d| + 1] == d + "/" {
      assert dir[|d|] == dir[..|d| + 1][|d|] && dir[..|d|] == dir[..|d| + 1][..|d|];
    }
    if d in Above(dir) && d != dir {
      var i :| 0 < i < |dir| && dir[i] == '/' && d == dir[..i];
      assert dir[..i + 1] == d + "/";
    }
  }

  class FileSystem {
    var files: Files
    var dirs: set<string>
    /** Whether the n-th operation raises an OSError. */
    const fails: nat -> bool
    /** The random parts of the temporary names that the n-th operation tries, one after the other. */
    const token: (nat, nat) -> string
    var clock: nat
    /** Every state of the files so far, the current one last: what a crash can leave behind. */
    ghost var past: seq<Files>

    ghost predicate Valid()
      reads this
    {
      && files.Keys !! dirs
      && past != [] && past[|past| - 1] == files
      && forall n, attempt :: '/' !in token(n, attempt)
    }

    constructor (files: Files, dirs: set<string>, fails: nat -> bool, token: (nat, nat) -> string)
      requires files.Keys !! dirs && forall n, attempt :: '/' !in token(n, attempt)
      ensures Valid() && this.files == files && this.dirs == dirs && past == [files]
      ensures this.fails == fails && this.token == token
    {
      this.files, this.dirs, this.fails, this.token := files, dirs, fails, token;
      clock := 0;
      past := [files];
    }

    /** No operation has failed since the clock stood at `from`. */
    ghost predicate Smooth(from: nat)
      reads this`clock
    {
      forall n :: from <= n < clock ==> !fails(n)
    }

    predicate Exists(path: string)
      reads this
    {
      path in files || path in dirs
    }

    method Tick() returns (ok: bool)
      modifies this`clock
      ensures ok == !fails(old(clock)) && clock == old(clock) + 1
    {
      ok := !fails(clock);
      clock := clock + 1;
    }

    method Set(next: Files)
      requires Valid() && next.Keys !! dirs
      modifies this`files, this`past
      ensures Valid() && files == next && past == old(past) + [next]
    {
      files := next;
      past := past + [next];
    }

    method Read(path: string) returns (content: Bytes, ok: bool)
      requires Valid()
      modifies this`clock
      ensures Valid() && clock == old(clock) + 1
      ensures ok == (path in files && !fails(old(clock)))
      ensures ok ==> content == files[path]
    {
      ok := Tick();
      ok := ok && path in files;
      content := if ok then files[path] else [];
    }

    method Unlink(path: string) returns (ok: bool)
      requires Valid()
      modifies this`files, this`past, this`clock
      ensures Valid() && clock == old(clock) + 1
      ensures ok == (path in old(files) && !fails(old(clock)))
      ensures if ok then files == old(files) - {path} && past == old(past) + [files]
              else files == old(files) && past == old(past)
    {
      ok := Tick();
      ok := ok && path in files;
      if ok { Set(files - {path}); }
    }

    /** `os.rename` and `os.replace`: atomic, and over an existing file. */
    method Rename(from: string, to: string) returns (ok: bool)
      requires Valid()
      modifies this`files, this`past, this`clock
      ensures Valid() && clock == old(clock) + 1
      ensures ok == (from in old(files) && to !in dirs && !fails(old(clock)))
      ensures if ok then files == Renamed(old(files), from, to) && past == old(past) + [files]
              else files == old(files) && past == old(past)
    {
      ok := Tick();
      ok := ok && from in files && to !in dirs;
      if ok { Set(Renamed(files, from, to)); }
    }

    /** `os.makedirs(dir, exist_ok=True)`. */
    method Makedirs(dir: string) returns (ok: bool)
      requires Valid()
      modifies this`dirs, this`clock
      ensures Valid() && clock == old(clock) + 1
      ensures ok <==> !fails(old(clock)) && Above(dir) * files.Keys == {}
      ensures dirs == if ok then old(dirs) + Above(dir) else old(dirs)
    {
      ok := Tick();
      ok := ok && Above(dir) * files.Keys == {};
      if ok { dirs := dirs + Above(dir); }
    }

    /** Writes one more byte of the content. */
    method Extend(ghost before: Files, path: string, content: Bytes, n: nat) returns (ok: bool)
      requires Valid() && n < |content| && path !in dirs && files == before[path := content[..n]]
      modifies this`files, this`past, this`clock
      ensures Valid() && clock == old(clock) + 1 && ok == !fails(old(clock))
      ensures if ok then files == before[path := content[..n + 1]] && past == old(past) + [files]
              else files == old(files) && past == old(past)
    {
      ok := Tick();
      if ok {
        assert before[path := content[..n]][path := content[..n + 1]] == before[path := content[..n + 1]];
        Set(files[path := content[..n + 1]]);
      }
    }

    /**
      Opens a file, which empties it, and writes the content piece by piece; any step
      may fail.  Every operation but the last of a call adds one state.
    */
    method Fill(path: string, content: Bytes) returns (ok: bool)
      requires Valid()
      modifies this`files, this`past, this`clock
      ensures Valid() && old(clock) < clock <= old(clock) + |content| + 2
      ensures past == old(past) + Stages(old(files), path, content, clock - old(clock) - 1)
      ensures forall n :: old(clock) <= n < clock - 1 ==> !fails(n)
      ensures ok <==> path !in dirs && !fails(clock - 1)
      ensures ok ==> clock == old(clock) + |content| + 2
      ensures path in dirs ==> clock == old(clock) + 1
    {
      ok := Tick();
      if !ok || path in dirs {
        return false;
      }
      Set(files[path := []]);
      for n := 0 to |content|
        invariant Valid() && clock == old(clock) + n + 1 && Smooth(old(clock))
        invariant files == old(files)[path := content[..n]]
        invariant past == old(past) + Stages(old(files), path, content, n + 1)
      {
        ok := Extend(old(files), path, content, n);
        if !ok {
          return;
        }
      }
      ok := Tick();
    }
  }
}
