/** Bounded persistence: `commit` writes a temporary file and replaces the target with it, `load` reads the target
    back.  Every file-system call may fail and the clock may advance between any two of them. */
module Persistence {
  import opened Options
  import opened Unicode
  import opened Utf8

  const CHUNK_BYTES: nat := 65536
  const ATTEMPTS: nat := 16

  /** What a name of the parent directory refers to. */
  datatype Node = Regular(bytes: Bytes) | Symlink | Special

  type Files = map<string, Node>

  datatype Error =
    | Contract    // KS3420
    | Budget      // KS3421
    | Deadline    // KS3422
    | Uncertain   // KS3423
    | Io          // KS3424

  datatype Committed = Unit | Refused(code: Error)

  datatype Loaded = Contents(value: Text) | Failed(code: Error)

  predicate SafeShape(files: Files, name: string) {
    name in files ==> files[name].Regular?
  }

  ghost predicate Same(files: Files, files': Files, name: string) {
    (name in files <==> name in files') && (name in files ==> files[name] == files'[name])
  }

  predicate Holds(files: Files, name: string, bytes: Bytes) {
    name in files && files[name] == Regular(bytes)
  }

  /** The state was replaced: the caller got Unit, or the durability warning KS3423. */
  predicate Replaced(r: Committed) {
    r == Unit || r == Refused(Uncertain)
  }

  /** What one commit may do to the directory: install exactly the payload, or leave every file alone, except that a
      temporary file whose removal failed stays behind with a prefix of the payload. */
  ghost predicate CommitStep(files: Files, files': Files, name: string, value: Text, temps: seq<string>, r: Committed, unlinked: bool) {
    if Replaced(r) then Encode(value).Some? && files' == files[name := Regular(Encode(value).value)]
    else if unlinked then files' == files
    else Encode(value).Some? && exists t :: Partial(files, files', temps, t, Encode(value).value)
  }

  /** One extra file, a temporary one with the given contents. */
  ghost predicate Prepared(files: Files, files': Files, temps: seq<string>, t: string, part: Bytes) {
    t in temps && t !in files && files' == files[t := Regular(part)]
  }

  /** One extra file, a temporary one with some prefix of the payload. */
  ghost predicate Partial(files: Files, files': Files, temps: seq<string>, t: string, payload: Bytes) {
    t in files' && files'[t].Regular? && files'[t].bytes <= payload && Prepared(files, files', temps, t, files'[t].bytes)
  }

  /** What a load without faults answers. */
  function LoadResult(files: Files, name: string, maxBytes: nat): Loaded {
    if name !in files then Failed(Io)
    else match files[name]
      case Symlink | Special => Failed(Contract)
      case Regular(bytes) =>
        if |bytes| > maxBytes then Failed(Budget)
        else match Decode(bytes)
          case None => Failed(Contract)
          case Some(text) => Contents(text)
  }

  /** What a commit without faults and in time answers. */
  ghost function CommitResult(files: Files, name: string, anchored: bool, maxBytes: nat, value: Text, temps: seq<string>): Committed {
    match Encode(value)
    case None => Refused(Contract)
    case Some(payload) =>
      if |payload| > maxBytes then Refused(Budget)
      else if !anchored then Refused(Io)
      else if name in files && !files[name].Regular? then Refused(Contract)
      else if forall i :: 0 <= i < |temps| ==> temps[i] in files then Refused(Io)
      else Unit
  }

  /** Every state the directory went through shows the old target or the whole payload, and once the payload is
      there it stays. */
  ghost predicate CrashAtomic(files: Files, states: seq<Files>, name: string, payload: Bytes) {
    exists k :: 0 <= k <= |states| && SwitchesAt(files, states, name, payload, k)
  }

  ghost predicate SwitchesAt(files: Files, states: seq<Files>, name: string, payload: Bytes, k: nat)
    requires k <= |states|
  {
    && (forall i :: 0 <= i < k ==> Same(files, states[i], name))
    && (forall i :: k <= i < |states| ==> Holds(states[i], name, payload))
  }

  class PersistCaps {
    const name: string
    const maxBytes: nat
    const deadlineMs: nat
    const anchored: bool            // the parent directory could be opened
    var files: Files
    var now: int
    ghost var faulty: bool          // some call failed by itself
    ghost var unlinked: bool        // no removal of a temporary file failed
    ghost var states: seq<Files>    // the directory after each change

    constructor (name: string, maxBytes: nat, deadlineMs: nat, anchored: bool, files: Files, now: int)
      ensures this.name == name && this.maxBytes == maxBytes && this.deadlineMs == deadlineMs
      ensures this.anchored == anchored && this.files == files && this.now == now
      ensures !faulty && unlinked && states == []
    {
      this.name, this.maxBytes, this.deadlineMs, this.anchored := name, maxBytes, deadlineMs, anchored;
      this.files, this.now := files, now;
      faulty, unlinked, states := false, true, [];
    }

    // ----- The system calls

    method Expired(deadline: int) returns (late: bool)
      modifies this`now
      ensures now >= old(now) && (late <==> now > deadline)
    {
      var later: int := *;
      now := if later > now then later else now;
      late := now > deadline;
    }

    /** A call without effect on the directory (`dup`, `stat`, `fsync`, `fstat`) succeeds or fails. */
    method Succeeds() returns (ok: bool)
      modifies this`faulty
      ensures (old(faulty) ==> faulty) && (!ok ==> faulty)
    {
      ok := *;
      if !ok { faulty := true; }
    }

    /** Exclusive creation: never opens an existing name. */
    method Create(t: string) returns (ok: bool, taken: bool)
      modifies this`files, this`faulty, this`states
      ensures (old(faulty) ==> faulty) && (taken <==> t in old(files)) && (ok ==> !taken)
      ensures ok ==> files == old(files)[t := Regular([])] && states == old(states) + [files]
      ensures !ok ==> files == old(files) && states == old(states)
      ensures !ok && !taken ==> faulty
    {
      taken := t in files;
      if taken { return false, true; }
      ok := Succeeds();
      if ok {
        files := files[t := Regular([])];
        states := states + [files];
      }
    }

    /** Appends some prefix of `chunk`, possibly empty, and may then report an error. */
    method Write(t: string, chunk: Bytes) returns (ok: bool, written: nat)
      requires t in files && files[t].Regular?
      modifies this`files, this`faulty, this`states
      ensures (old(faulty) ==> faulty) && (!ok || (written == 0 && chunk != []) ==> faulty)
      ensures written <= |chunk|
      ensures files == old(files)[t := Regular(old(files)[t].bytes + chunk[..written])] && states == old(states) + [files]
    {
      var n: int := *;
      written := if 0 <= n <= |chunk| then n else |chunk|;
      files := files[t := Regular(files[t].bytes + chunk[..written])];
      states := states + [files];
      ok := Succeeds();
      if written == 0 { faulty := true; }
    }

    method Replace(t: string) returns (ok: bool)
      requires t in files
      modifies this`files, this`faulty, this`states
      ensures (old(faulty) ==> faulty) && (!ok ==> faulty)
      ensures ok ==> files == (old(files) - {t})[name := old(files)[t]] && states == old(states) + [files]
      ensures !ok ==> files == old(files) && states == old(states)
    {
      ok := Succeeds();
      if ok {
        files := (files - {t})[name := files[t]];
        states := states + [files];
      }
    }

    /** Removes the temporary file, or fails and sets `unlinked` to false. */
    method Unlink(t: string)
      modifies this`files, this`faulty, this`unlinked, this`states
      ensures old(faulty) ==> faulty
      ensures unlinked ==> files == old(files) - {t} && states == old(states) + [files]
      ensures !unlinked ==> faulty && files == old(files) && states == old(states)
    {
      var ok := Succeeds();
      unlinked := ok;
      if ok {
        files := files - {t};
        states := states + [files];
      }
    }

    // ----- Commit

    /** Nothing the caller can see at the target has changed so far. */
    ghost predicate Hidden(origin: Files, before: seq<Files>, temps: seq<string>)
      reads this
    {
      && before <= states
      && (name in origin || name !in temps ==> forall i :: |before| <= i < |states| ==> Same(origin, states[i], name))
    }

    method TargetShape() returns (code: Option<Error>)
      modifies this`faulty
      ensures old(faulty) ==> faulty
      ensures code == None ==> SafeShape(files, name)
      ensures !faulty ==> code == if SafeShape(files, name) then None else Some(Contract)
      ensures code == None || (code == Some(Contract) && !SafeShape(files, name)) || (code == Some(Io) && faulty)
    {
      var ok := Succeeds();
      if !ok { return Some(Io); }
      if name !in files { return None; }
      if !files[name].Regular? { return Some(Contract); }
      return None;
    }

    method CreateTemp(temps: seq<string>, deadline: int) returns (code: Option<Error>, t: string)
      requires |temps| == ATTEMPTS
      modifies this`files, this`faulty, this`states, this`now
      ensures now >= old(now) && (old(faulty) ==> faulty)
      ensures code == None ==> Prepared(old(files), files, temps, t, [])
      ensures code != None ==> files == old(files) && states == old(states)
      ensures Hidden(old(files), old(states), temps)
      ensures code == None || (code == Some(Deadline) && now > deadline)
        || (code == Some(Io) && (faulty || forall i :: 0 <= i < |temps| ==> temps[i] in files))
      ensures code == None ==> exists i :: 0 <= i < |temps| && temps[i] !in old(files)
    {
      t := "";
      for i := 0 to ATTEMPTS
        invariant now >= old(now) && (old(faulty) ==> faulty)
        invariant files == old(files) && states == old(states)
        invariant forall j :: 0 <= j < i ==> temps[j] in files
      {
        var late := Expired(deadline);
        if late { return Some(Deadline), t; }
        var ok, taken := Create(temps[i]);
        if ok { return None, temps[i]; }
        if !taken { return Some(Io), t; }
      }
      return Some(Io), t;
    }

    /** The write loop: short writes go on, an error, a deadline or a write without progress ends it. */
    method WriteAll(t: string, payload: Bytes, temps: seq<string>, deadline: int, ghost origin: Files, ghost before: seq<Files>)
      returns (code: Option<Error>)
      requires Prepared(origin, files, temps, t, []) && Hidden(origin, before, temps)
      modifies this`files, this`faulty, this`states, this`now
      ensures now >= old(now) && (old(faulty) ==> faulty) && Hidden(origin, before, temps)
      ensures code == None ==> Prepared(origin, files, temps, t, payload)
      ensures code == None || (code == Some(Deadline) && now > deadline) || (code == Some(Io) && faulty)
      ensures Partial(origin, files, temps, t, payload)
    {
      var offset := 0;
      while offset < |payload|
        invariant offset <= |payload| && now >= old(now) && (old(faulty) ==> faulty)
        invariant Prepared(origin, files, temps, t, payload[..offset]) && Hidden(origin, before, temps)
      {
        var late := Expired(deadline);
        if late { return Some(Deadline); }
        var end := if offset + CHUNK_BYTES < |payload| then offset + CHUNK_BYTES else |payload|;
        var ok, written := Write(t, payload[offset..end]);
        assert payload[..offset] + payload[offset..end][..written] == payload[..offset + written];
        assert Prepared(origin, files, temps, t, payload[..offset + written]);
        if !ok { return Some(Io); }
        late := Expired(deadline);
        if late { return Some(Deadline); }
        if written <= 0 { return Some(Io); }
        offset := offset + written;
      }
      assert payload[..offset] == payload;
      return None;
    }

    /** From the last write to the replacement. */
    method Flush(deadline: int) returns (code: Option<Error>)
      modifies this`faulty, this`now
      ensures now >= old(now) && (old(faulty) ==> faulty)
      ensures code == None || (code == Some(Deadline) && now > deadline) || (code == Some(Io) && faulty)
    {
      var late := Expired(deadline);
      if late { return Some(Deadline); }
      var ok := Succeeds();
      if !ok { return Some(Io); }
      late := Expired(deadline);
      if late { return Some(Deadline); }
      late := Expired(deadline);
      return if late then Some(Deadline) else None;
    }

    /** After the replacement: Unit only when the directory was synchronised in time. */
    method Confirm(deadline: int) returns (r: Committed)
      modifies this`faulty, this`now
      ensures now >= old(now) && (old(faulty) ==> faulty)
      ensures r == Unit || (r == Refused(Uncertain) && (faulty || now > deadline))
    {
      var late := Expired(deadline);
      if late { return Refused(Uncertain); }
      var ok := Succeeds();
      if !ok { return Refused(Uncertain); }
      late := Expired(deadline);
      return if late then Refused(Uncertain) else Unit;
    }

    /** Everything up to the replacement; `temp` is the file that `finally` has to remove. */
    method Attempt(payload: Bytes, temps: seq<string>, deadline: int) returns (r: Committed, temp: Option<string>)
      requires |temps| == ATTEMPTS
      modifies this`files, this`faulty, this`states, this`now
      ensures now >= old(now) && (old(faulty) ==> faulty) && old(states) <= states
      ensures Replaced(r) ==> temp == None && files == old(files)[name := Regular(payload)]
      ensures Replaced(r) ==> |states| > |old(states)| && Holds(states[|states| - 1], name, payload)
      ensures Replaced(r) && (name in old(files) || name !in temps) ==>
        forall i :: |old(states)| <= i < |states| - 1 ==> Same(old(files), states[i], name)
      ensures !Replaced(r) ==> Hidden(old(files), old(states), temps)
      ensures !Replaced(r) && temp == None ==> files == old(files)
      ensures !Replaced(r) && temp != None ==> Partial(old(files), files, temps, temp.value, payload)
      ensures !faulty && now <= deadline ==>
        r == if !anchored then Refused(Io)
             else if !SafeShape(old(files), name) then Refused(Contract)
             else if (forall i :: 0 <= i < |temps| ==> temps[i] in old(files)) then Refused(Io)
             else Unit
      ensures r != Refused(Budget) && (r == Refused(Contract) ==> !SafeShape(old(files), name))
      ensures r == Refused(Uncertain) ==> faulty || now > deadline
      ensures r == Refused(Deadline) ==> now > deadline
      ensures Replaced(r) ==> SafeShape(old(files), name)
    {
      hide Encode;
      if !anchored { return Refused(Io), None; }
      var ok := Succeeds();
      if !ok { return Refused(Io), None; }
      var code := TargetShape();
      if code.Some? { return Refused(code.value), None; }
      var t;
      code, t := CreateTemp(temps, deadline);
      if code.Some? { return Refused(code.value), None; }
      code := WriteAll(t, payload, temps, deadline, old(files), old(states));
      if code.Some? { return Refused(code.value), Some(t); }
      code := Flush(deadline);
      if code.Some? { return Refused(code.value), Some(t); }
      ok := Replace(t);
      if !ok { return Refused(Io), Some(t); }
      assert files == old(files)[name := Regular(payload)];
      r := Confirm(deadline);
      temp := None;
    }

    /** `PersistCaps.commit`; `temps` are the random names it tries. */
    method Commit(value: Text, temps: seq<string>) returns (r: Committed)
      requires |temps| == ATTEMPTS
      modifies this`files, this`faulty, this`unlinked, this`states, this`now
      ensures now >= old(now) && (old(faulty) ==> faulty) && (!unlinked ==> faulty)
      ensures CommitStep(old(files), files, name, value, temps, r, unlinked)
      ensures r == Refused(Budget) <==> Encode(value).Some? && |Encode(value).value| > maxBytes
      ensures r == Refused(Contract) ==> Encode(value) == None || !SafeShape(old(files), name)
      ensures r == Refused(Uncertain) ==> faulty || now > old(now) + deadlineMs
      ensures r == Refused(Deadline) ==> now > old(now) + deadlineMs
      ensures Replaced(r) ==> SafeShape(old(files), name)
      ensures !faulty && now <= old(now) + deadlineMs ==> r == CommitResult(old(files), name, anchored, maxBytes, value, temps)
      ensures Encode(value) == None ==> r == Refused(Contract)
      ensures old(states) <= states
      ensures Encode(value).Some? && (name in old(files) || name !in temps) ==>
        CrashAtomic(old(files), states[|old(states)|..], name, Encode(value).value)
    {
      unlinked := true;
      var encoded := Encode(value);
      if encoded.None? { return Refused(Contract); }
      var payload := encoded.value;
      if |payload| > maxBytes { assert SwitchesAt(files, states[|states|..], name, payload, 0); return Refused(Budget); }
      var deadline := now + deadlineMs;
      var late := Expired(deadline);
      if late { assert SwitchesAt(files, states[|states|..], name, payload, 0); return Refused(Deadline); }
      var temp;
      r, temp := Attempt(payload, temps, deadline);
      if temp.Some? {
        Unlink(temp.value);
        assert unlinked ==> files == old(files);
        assert !unlinked ==> Partial(old(files), files, temps, temp.value, payload);
      }
      if name in old(files) || name !in temps {
        ghost var later := states[|old(states)|..];
        assert SwitchesAt(old(files), later, name, payload, if Replaced(r) then |later| - 1 else |later|);
      }
    }

    // ----- Load

    /** One `read`: some non-empty part of what follows `position`, nothing at the end of the file, or an error. */
    method Read(bytes: Bytes, position: nat, limit: nat) returns (ok: bool, chunk: Bytes)
      requires position <= |bytes| && limit > 0
      modifies this`faulty
      ensures (old(faulty) ==> faulty) && (!ok ==> faulty)
      ensures |chunk| <= limit && |chunk| <= |bytes| - position && chunk == bytes[position..position + |chunk|]
      ensures chunk == [] <==> position == |bytes|
    {
      ok := Succeeds();
      var wanted: int := *;
      var n := if limit < |bytes| - position then limit else |bytes| - position;
      n := if 1 <= wanted < n then wanted else n;
      chunk := bytes[position..position + n];
    }

    /** `PersistCaps.load`: the answer of `LoadResult`, unless a call failed or time ran out. */
    method Load() returns (r: Loaded)
      modifies this`faulty, this`now
      ensures now >= old(now) && (old(faulty) ==> faulty)
      ensures r == LoadResult(files, name, maxBytes)
        || (r == Failed(Io) && (faulty || !anchored))
        || (r == Failed(Deadline) && now > old(now) + deadlineMs)
    {
      var deadline := now + deadlineMs;
      var late := Expired(deadline);
      if late { return Failed(Deadline); }
      if !anchored { return Failed(Io); }
      var ok := Succeeds();
      if !ok { return Failed(Io); }
      var code := TargetShape();
      if code.Some? { return Failed(code.value); }
      late := Expired(deadline);
      if late { return Failed(Deadline); }
      if name !in files { return Failed(Io); }
      ok := Succeeds();
      if !ok { return Failed(Io); }
      var bytes := files[name].bytes;
      ok := Succeeds();
      if !ok { return Failed(Io); }
      if |bytes| > maxBytes { return Failed(Budget); }
      var buffer: Bytes := [];
      while true
        invariant now >= old(now) && (old(faulty) ==> faulty)
        invariant |buffer| <= |bytes| && buffer == bytes[..|buffer|]
        decreases |bytes| - |buffer|
      {
        late := Expired(deadline);
        if late { return Failed(Deadline); }
        var remaining := maxBytes + 1 - |buffer|;
        var chunk;
        ok, chunk := Read(bytes, |buffer|, if CHUNK_BYTES < remaining then CHUNK_BYTES else remaining);
        if !ok { return Failed(Io); }
        late := Expired(deadline);
        if late { return Failed(Deadline); }
        if chunk == [] { break; }
        buffer := buffer + chunk;
        if |buffer| > maxBytes { return Failed(Budget); }
      }
      assert buffer == bytes;
      var text := Decode(buffer);
      r := if text.None? then Failed(Contract) else Contents(text.value);
    }
  }

  // ----- Whole runs

  /** What a commit that took effect stored is what a load returns. */
  lemma CommittedLoads(files: Files, files': Files, name: string, maxBytes: nat, value: Text, temps: seq<string>, r: Committed, unlinked: bool)
    requires CommitStep(files, files', name, value, temps, r, unlinked) && Replaced(r)
    requires |Encode(value).value| <= maxBytes
    ensures LoadResult(files', name, maxBytes) == Contents(value)
  {
    DecodesIff(Encode(value).value, value);
  }

  datatype Call = Call(value: Text, temps: seq<string>, result: Committed, unlinked: bool)

  /** A history of commits: `dirs[i]` is the directory before call `i`. */
  ghost predicate History(dirs: seq<Files>, calls: seq<Call>, name: string, maxBytes: nat) {
    && |dirs| == |calls| + 1
    && (forall i :: 0 <= i < |calls| ==> CallOf(dirs[i], dirs[i + 1], calls[i], name, maxBytes))
  }

  ghost predicate CallOf(before: Files, after: Files, call: Call, name: string, maxBytes: nat) {
    && CommitStep(before, after, name, call.value, call.temps, call.result, call.unlinked)
    && (Replaced(call.result) ==> |Encode(call.value).value| <= maxBytes)
    && (name in call.temps ==> name in before)
  }

  /** The value of the last commit that reported Unit or KS3423, if any did. */
  function Latest(calls: seq<Call>): Option<Text> {
    if calls == [] then None
    else
      var last := calls[|calls| - 1];
      if Replaced(last.result) then Some(last.value) else Latest(calls[..|calls| - 1])
  }

  /** After any history of commits, whatever failed in them, the target holds the last value whose commit
      reported Unit or KS3423, and is untouched when there is none. */
  lemma {:induction false} LatestIsStored(dirs: seq<Files>, calls: seq<Call>, name: string, maxBytes: nat)
    requires History(dirs, calls, name, maxBytes)
    ensures match Latest(calls)
      case None => Same(dirs[0], dirs[|calls|], name)
      case Some(value) => LoadResult(dirs[|calls|], name, maxBytes) == Contents(value)
  {
    hide CommitStep, LoadResult;
    if calls != [] {
      var n := |calls| - 1;
      var last := calls[n];
      assert CallOf(dirs[n], dirs[n + 1], last, name, maxBytes);
      if Replaced(last.result) {
        CommittedLoads(dirs[n], dirs[n + 1], name, maxBytes, last.value, last.temps, last.result, last.unlinked);
      } else {
        TargetKept(dirs[n], dirs[n + 1], last, name, maxBytes);
        LatestIsStored(dirs[..n + 1], calls[..n], name, maxBytes);
        SameLoads(dirs[n], dirs[n + 1], name, maxBytes);
      }
    }
  }

  lemma TargetKept(before: Files, after: Files, call: Call, name: string, maxBytes: nat)
    requires CallOf(before, after, call, name, maxBytes) && !Replaced(call.result)
    ensures Same(before, after, name)
  {
  }

  lemma SameLoads(before: Files, after: Files, name: string, maxBytes: nat)
    requires Same(before, after, name)
    ensures LoadResult(before, name, maxBytes) == LoadResult(after, name, maxBytes)
  {
  }
}
