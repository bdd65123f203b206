/**
  One published view file: a replacement becomes readable to the runtime group by two calls, the
  first for its owner and the second for its mode.
  Source: internal/securefs/viewwriter.go.
*/
module Publication {
  import opened Common

  /** A view file by owner and mode: root's own, given to the readers' group but not opened to it
      yet, or readable by it. */
  datatype ViewFile = Absent | Private(bytes: Bytes) | Halfway(bytes: Bytes) | Readable(bytes: Bytes)

  /** `inspectRecoverablePublicationFile`, which every replacement asks first. */
  predicate Recoverable(f: ViewFile) {
    !f.Halfway?
  }

  /** `ReplaceFile`. With `cut`, an otherwise undisturbed call is cut between owner and mode. */
  method Replace(f: ViewFile, bytes: Bytes, calm: bool, cut: bool) returns (ok: bool, g: ViewFile)
    ensures Changes(f, g) && (ok ==> g == Readable(bytes))
    ensures g == f || (Recoverable(f) && (g == Private(bytes) || g == Halfway(bytes) || g == Readable(bytes)))
    ensures calm && !cut ==> (ok <==> Recoverable(f))
    ensures calm && cut && Recoverable(f) ==> !ok && g == Halfway(bytes)
  {
    if !Recoverable(f) {
      return false, f;
    }
    if calm {
      return !cut, if cut then Halfway(bytes) else Readable(bytes);
    }
    if * {
      return true, Readable(bytes);
    }
    if * {
      return false, f;
    } else if * {
      return false, Private(bytes);
    } else if * {
      return false, Halfway(bytes);
    }
    return false, Readable(bytes);
  }

  /** `UnlinkFile` removes a readable file only. */
  method Unlink(f: ViewFile, calm: bool) returns (ok: bool, g: ViewFile)
    ensures Changes(f, g) && (ok ==> g == Absent)
    ensures calm ==> (ok <==> f.Readable?)
  {
    if !f.Readable? {
      return false, f;
    }
    ok, g := true, Absent;
    if !calm {
      ok := *;
      if !ok {
        var applied := *;
        g := if applied then Absent else f;
      }
    }
  }

  /** What replacements and removals, cut anywhere, do to a file. */
  predicate Changes(f: ViewFile, g: ViewFile) {
    g == f || (Recoverable(f) && !g.Absent?) || (f.Readable? && g.Absent?)
  }

  ghost predicate Run(fs: seq<ViewFile>) {
    forall k {:trigger fs[k]} :: 0 < k < |fs| ==> Changes(fs[k - 1], fs[k])
  }

  /** A view file cut between owner and mode is as it is in every later run: no publication that
      needs it ever ends. */
  lemma {:induction false} HalfwayIsForever(fs: seq<ViewFile>, i: nat, j: nat)
    requires Run(fs) && i <= j < |fs| && fs[i].Halfway?
    ensures fs[j] == fs[i]
    decreases j
  {
    if i < j {
      HalfwayIsForever(fs, i, j - 1);
      assert Changes(fs[j - 1], fs[j]);
    }
  }
}
