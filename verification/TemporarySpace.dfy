/** The disk space that verifying a remote copy takes: the admission check and
    the files that `copy_and_verify` has in its temporary directory at a time. */
module TemporarySpace {
  import opened Outcomes

  const MAXIMUM_MANIFEST := 65536
  const MAXIMUM_RECEIPT := 4096
  const SIGNATURE_SIZE := 384
  const SEPARATOR_SIZE := 37
  const OVERHEAD := 1024 * 1024
  const RESERVE := 5 * 1024 * 1024 * 1024
  const MAXIMUM_ATTEMPTS := 37
  const BLOCK := 1024 * 1024

  datatype File =
    | StagedArtifact | StagedManifest
    | Receipt(attempt: nat) | Signature(attempt: nat) | Message
    | ArtifactReadback | ManifestReadback

  type Sizes = map<File, nat>

  lemma Smaller(s: Sizes, f: File)
    requires f in s
    ensures |s - {f}| < |s|
  {
    assert (s - {f}).Keys == s.Keys - {f};
    assert s.Keys == (s - {f}).Keys + {f};
  }

  ghost function Total(s: Sizes): nat
    decreases |s|
  {
    if s == map[] then 0
    else
      var f :| f in s;
      Smaller(s, f);
      s[f] + Total(s - {f})
  }

  lemma {:induction false} TotalWithout(s: Sizes, f: File)
    requires f in s
    ensures Total(s) == s[f] + Total(s - {f})
    decreases |s|
  {
    var g :| g in s && Total(s) == s[g] + Total(s - {g});
    if g != f {
      var a, b := s - {g}, s - {f};
      Smaller(s, g);
      Smaller(s, f);
      assert f in a && g in b;
      assert a - {f} == b - {g};
      TotalWithout(a, f);
      TotalWithout(b, g);
    }
  }

  lemma TotalWith(s: Sizes, f: File, n: nat)
    requires f !in s
    ensures Total(s[f := n]) == Total(s) + n
  {
    TotalWithout(s[f := n], f);
    assert s[f := n] - {f} == s;
  }

  function Max(a: nat, b: nat): nat { if a < b then b else a }

  function Min(a: nat, b: nat): nat { if a < b then a else b }

  /** `_required_temporary_free_bytes`. */
  function Required(artifact: nat, manifest: nat): nat {
    2 * artifact + 2 * manifest + OVERHEAD + RESERVE
  }

  /** The requirement: each file twice, the receipts, and five GiB in reserve. */
  lemma RequirementIs(artifact: nat, manifest: nat)
    ensures Required(artifact, manifest) == 2 * artifact + 2 * manifest + 1048576 + 5368709120
    ensures MAXIMUM_RECEIPT == 4096 && SIGNATURE_SIZE == 384
    ensures SEPARATOR_SIZE == |"YOLPOL-WINDOWS-DURABILITY-RECEIPT-V1"| + 1
  {
  }

  /** What verifying a copy goes through. */
  datatype Check =
    | ArtifactStaged | ManifestStaged | Uploaded | ReceiptValid | SignatureValid
    | ArtifactMatches | ManifestMatches

  /** One temporary verification directory. `peak` is the largest number of bytes
      that were ever in it at the same time. */
  class VerificationDirectory {
    var sizes: Sizes
    ghost var peak: nat
    /** The checks that were passed, in order. */
    ghost var passed: seq<Check>

    ghost predicate Valid()
      reads this
    {
      Total(sizes) <= peak
    }

    constructor ()
      ensures Valid() && sizes == map[] && peak == 0 && passed == []
    {
      sizes := map[];
      peak, passed := 0, [];
    }

    /** The file now has `n` bytes. */
    method Grow(f: File, n: nat)
      requires Valid()
      modifies this`sizes, this`peak
      ensures Valid() && sizes == old(sizes)[f := n] && peak == Max(old(peak), Total(sizes))
    {
      sizes := sizes[f := n];
      peak := Max(peak, Total(sizes));
    }

    method Remove(f: File) returns (result: Outcome)
      requires Valid()
      modifies this`sizes, this`peak
      ensures Valid() && peak == old(peak) && !result.Escaped?
      ensures sizes == if result.Done? then old(sizes) - {f} else old(sizes)
    {
      result := Attempt();
      if result.Done? {
        if f in sizes {
          TotalWithout(sizes, f);
          sizes := sizes - {f};
        }
      }
    }

    /** `_stage_validated_file` of a source with `size` bytes. `fault` tells that
        the system failed; `same` is the comparison of digests. */
    method Stage(f: File, size: nat, expected: nat, maximum: Option<nat>, same: bool)
      returns (result: Outcome, fault: bool)
      requires Valid() && f !in sizes
      modifies this`sizes, this`peak
      ensures Valid() && peak >= old(peak) && !result.Escaped?
      ensures result.Done? ==> size == expected && same && sizes == old(sizes)[f := expected]
      ensures peak <= Max(old(peak), Total(old(sizes)) + if maximum.Some? then Min(size, maximum.value) else size)
      ensures !fault && maximum.None? ==> peak >= Total(old(sizes)) + size
    {
      fault := true;
      result := Attempt();
      if !result.Done? {
        return;
      }
      var written := 0;
      TotalWith(sizes, f, 0);
      Grow(f, 0);
      while written < size
        invariant written <= size && (maximum.Some? ==> written <= maximum.value)
        invariant Valid() && sizes == old(sizes)[f := written]
        invariant peak == Max(old(peak), Total(old(sizes)) + written)
      {
        result := Attempt();
        if !result.Done? {
          return;
        }
        assert 1 <= BLOCK && 1 <= size - written;
        var block: nat :| 1 <= block <= BLOCK && block <= size - written;
        if maximum.Some? && written + block > maximum.value {
          return Raised, false;
        }
        written := written + block;
        TotalWith(old(sizes), f, written);
        assert sizes[f := written] == old(sizes)[f := written];
        Grow(f, written);
      }
      return if written > 0 && written == expected && same then Done else Raised, false;
    }

    /** `_run_bounded_sftp_get`: whatever happens, the file gets at most `maximum`
        bytes, because the size limit is the process's. */
    method Get(f: File, maximum: nat) returns (result: Outcome)
      requires Valid() && f !in sizes
      modifies this`sizes, this`peak
      ensures Valid() && peak >= old(peak) && !result.Escaped?
      ensures sizes == old(sizes) || (f in sizes && sizes[f] <= maximum && sizes == old(sizes)[f := sizes[f]])
      ensures result.Done? ==> f in sizes
      ensures peak <= Max(old(peak), Total(old(sizes)) + maximum)
    {
      result := Attempt();
      var arrived: bool := *;
      if arrived {
        var n: nat :| n <= maximum;
        TotalWith(sizes, f, n);
        Grow(f, n);
      } else if result.Done? {
        result := Raised;
      }
    }

    /** `_poll_windows_receipt`: up to 37 attempts, each with files of its own
        that are removed before the next. */
    method Poll(holds: Check -> bool) returns (result: Outcome, attempt: nat)
      requires Valid() && forall n :: Receipt(n) !in sizes && Signature(n) !in sizes
      modifies this
      ensures Valid() && peak >= old(peak) && !result.Escaped?
      ensures result.Done? ==>
        && sizes.Keys == old(sizes.Keys) + {Receipt(attempt), Signature(attempt)}
        && sizes[Receipt(attempt)] <= MAXIMUM_RECEIPT
        && Total(sizes) == Total(old(sizes)) + sizes[Receipt(attempt)] + SIGNATURE_SIZE
        && 1 <= attempt <= 37
      ensures passed == old(passed) + if result.Done? then [ReceiptValid] else []
      ensures result.Done? ==> holds(ReceiptValid)
      ensures peak <= Max(old(peak), Total(old(sizes)) + MAXIMUM_RECEIPT + SIGNATURE_SIZE)
    {
      ghost var before := sizes;
      attempt := 1;
      while attempt <= MAXIMUM_ATTEMPTS
        invariant Valid() && peak >= old(peak) && sizes == before && passed == old(passed) && 1 <= attempt
        invariant peak <= Max(old(peak), Total(before) + MAXIMUM_RECEIPT + SIGNATURE_SIZE)
        decreases MAXIMUM_ATTEMPTS - attempt
      {
        var timeUp: bool := *;
        if timeUp {
          return Raised, attempt;
        }
        result := Discard(attempt);
        if !result.Done? {
          return;
        }
        assert sizes == before;
        result := Fetch(attempt);
        if result.Done? {
          if sizes[Signature(attempt)] != SIGNATURE_SIZE || !holds(ReceiptValid) {
            result := Raised;
          } else {
            passed := passed + [ReceiptValid];
          }
          return;
        }
        if result.Stopped? {
          return;
        }
        result := Discard(attempt);
        if !result.Done? {
          return;
        }
        assert sizes == before;
        attempt := attempt + 1;
      }
      result := Raised;
    }

    /** Get the receipt, then its signature. */
    method Fetch(n: nat) returns (result: Outcome)
      requires Valid() && Receipt(n) !in sizes && Signature(n) !in sizes
      modifies this`sizes, this`peak
      ensures Valid() && peak >= old(peak) && !result.Escaped?
      ensures sizes - {Receipt(n), Signature(n)} == old(sizes)
      ensures result.Done? ==>
        && sizes.Keys == old(sizes.Keys) + {Receipt(n), Signature(n)}
        && sizes[Receipt(n)] <= MAXIMUM_RECEIPT
        && Total(sizes) == Total(old(sizes)) + sizes[Receipt(n)] + sizes[Signature(n)]
      ensures peak <= Max(old(peak), Total(old(sizes)) + MAXIMUM_RECEIPT + SIGNATURE_SIZE)
    {
      result := Get(Receipt(n), MAXIMUM_RECEIPT);
      if !result.Done? {
        return;
      }
      TotalWith(old(sizes), Receipt(n), sizes[Receipt(n)]);
      var late: bool := *;
      if late {
        return Raised;
      }
      ghost var middle := sizes;
      result := Get(Signature(n), SIGNATURE_SIZE);
      if result.Done? {
        TotalWith(middle, Signature(n), sizes[Signature(n)]);
      }
    }

    method Discard(n: nat) returns (result: Outcome)
      requires Valid()
      modifies this`sizes, this`peak
      ensures Valid() && peak == old(peak) && !result.Escaped?
      ensures result.Done? ==> sizes == old(sizes) - {Receipt(n), Signature(n)}
    {
      result := Remove(Receipt(n));
      if result.Done? {
        result := Remove(Signature(n));
      }
    }

    /** `copy_and_verify` of a pair inspected with sizes `artifact` and `manifest`,
        while its files have `artifactNow` and `manifestNow` bytes. `staged` tells
        that the artifact was read to its end without a fault. The directory never
        holds more than the admitted requirement less the reserve, provided the
        artifact has not grown past that since its inspection; and then it does.
        `holds` tells which of the comparisons of content succeed. */
    method CopyAndVerify(free: nat, artifact: nat, manifest: nat, artifactNow: nat, manifestNow: nat,
        holds: Check -> bool)
      returns (result: Outcome, staged: bool)
      requires sizes == map[] && peak == 0 && passed == []
      modifies this
      ensures artifactNow <= Required(artifact, manifest) - RESERVE ==> peak <= Required(artifact, manifest) - RESERVE
      ensures staged ==> peak >= artifactNow
      ensures free < 2 * artifact + 2 * manifest + 1048576 + 5368709120 || artifact < 1 || manifest < 1
              || manifest > 65536 ==>
        result.Raised? && peak == 0 && passed == []
      ensures result.Done? ==> sizes == map[] && artifact == artifactNow && manifest == manifestNow
      ensures result.Done? ==> passed == [ArtifactStaged, ManifestStaged, Uploaded, ReceiptValid, SignatureValid,
                                          ArtifactMatches, ManifestMatches]
      ensures result.Done? ==>
        && holds(ArtifactStaged) && holds(ManifestStaged) && holds(ReceiptValid) && holds(SignatureValid)
        && holds(ArtifactMatches) && holds(ManifestMatches)
    {
      staged := false;
      assert Total(sizes) == 0;
      if artifact < 1 || manifest < 1 || manifest > MAXIMUM_MANIFEST || free < Required(artifact, manifest) {
        return Raised, staged;
      }
      result, staged := Transfer(artifact, manifest, artifactNow, manifestNow, holds);
      if result.Stopped? {
        return;
      }
      var cleanup := Attempt();
      if cleanup.Done? {
        sizes := map[];
      } else {
        result := cleanup;
      }
    }

    /** Inside the temporary directory: staging, upload and confirmation. */
    method Transfer(artifact: nat, manifest: nat, artifactNow: nat, manifestNow: nat, holds: Check -> bool)
      returns (result: Outcome, staged: bool)
      requires sizes == map[] && peak == 0 && passed == [] && Total(sizes) == 0 && manifest <= MAXIMUM_MANIFEST
      modifies this
      ensures artifactNow <= Required(artifact, manifest) - RESERVE ==> peak <= Required(artifact, manifest) - RESERVE
      ensures staged ==> peak >= artifactNow
      ensures !result.Escaped?
      ensures result.Done? ==> artifact == artifactNow && manifest == manifestNow
      ensures result.Done? ==> passed == [ArtifactStaged, ManifestStaged, Uploaded, ReceiptValid, SignatureValid,
                                          ArtifactMatches, ManifestMatches]
      ensures result.Done? ==>
        && holds(ArtifactStaged) && holds(ManifestStaged) && holds(ReceiptValid) && holds(SignatureValid)
        && holds(ArtifactMatches) && holds(ManifestMatches)
    {
      var fault: bool;
      result, fault := Stage(StagedArtifact, artifactNow, artifact, None, holds(ArtifactStaged));
      staged := !fault;
      if !result.Done? {
        return;
      }
      passed := passed + [ArtifactStaged];
      TotalWith(map[], StagedArtifact, artifact);
      result, fault := Stage(StagedManifest, manifestNow, manifest, Some(MAXIMUM_MANIFEST), holds(ManifestStaged));
      if !result.Done? {
        return;
      }
      passed := passed + [ManifestStaged];
      TotalWith(map[StagedArtifact := artifact], StagedManifest, manifest);
      result := Attempt();
      if result.Done? {
        passed := passed + [Uploaded];
        result := Confirm(artifact, manifest, holds);
      }
    }

    /** The receipt, the verification of its signature, and the copies read back. */
    method Confirm(artifact: nat, manifest: nat, holds: Check -> bool) returns (result: Outcome)
      requires Valid() && sizes.Keys == {StagedArtifact, StagedManifest} && Total(sizes) == artifact + manifest
      modifies this
      ensures Valid() && peak >= old(peak) && !result.Escaped?
      ensures peak <= Max(old(peak), Required(artifact, manifest) - RESERVE)
      ensures result.Done? ==>
        && passed == old(passed) + [ReceiptValid, SignatureValid, ArtifactMatches, ManifestMatches]
        && holds(ReceiptValid) && holds(SignatureValid) && holds(ArtifactMatches) && holds(ManifestMatches)
    {
      hide Total;
      var attempt: nat;
      result, attempt := Poll(holds);
      if !result.Done? {
        return;
      }
      result := VerifySignature(sizes[Receipt(attempt)], holds(SignatureValid));
      if result.Done? {
        result := ReadBack(artifact, manifest, holds(ArtifactMatches), holds(ManifestMatches));
      }
    }

    /** `_verify_windows_receipt_signature`: the message is the receipt behind its
        domain separator. */
    method VerifySignature(receipt: nat, valid: bool) returns (result: Outcome)
      requires Valid() && Message !in sizes
      modifies this
      ensures Valid() && peak >= old(peak) && !result.Escaped?
      ensures sizes.Keys <= old(sizes.Keys) + {Message} && Total(sizes) <= Total(old(sizes)) + SEPARATOR_SIZE + receipt
      ensures peak <= Max(old(peak), Total(old(sizes)) + SEPARATOR_SIZE + receipt)
      ensures passed == old(passed) + if result.Done? then [SignatureValid] else []
      ensures result.Done? ==> valid
    {
      result := Attempt();
      if !result.Done? {
        return;
      }
      TotalWith(sizes, Message, SEPARATOR_SIZE + receipt);
      Grow(Message, SEPARATOR_SIZE + receipt);
      result := Attempt();
      if result.Done? && !valid {
        result := Raised;
      }
      if result.Done? {
        passed := passed + [SignatureValid];
      }
    }

    /** Get both files from the durable store and compare them. */
    method ReadBack(artifact: nat, manifest: nat, sameArtifact: bool, sameManifest: bool) returns (result: Outcome)
      requires Valid() && ArtifactReadback !in sizes && ManifestReadback !in sizes
      modifies this
      ensures Valid() && peak >= old(peak) && !result.Escaped?
      ensures peak <= Max(old(peak), Total(old(sizes)) + artifact + manifest)
      ensures result.Done? ==>
        passed == old(passed) + [ArtifactMatches, ManifestMatches] && sameArtifact && sameManifest
    {
      result := Get(ArtifactReadback, artifact);
      if !result.Done? {
        return;
      }
      TotalWith(old(sizes), ArtifactReadback, sizes[ArtifactReadback]);
      result := Get(ManifestReadback, manifest);
      if !result.Done? {
        return;
      }
      if sizes[ArtifactReadback] != artifact || sizes[ManifestReadback] != manifest || !sameArtifact || !sameManifest {
        result := Raised;
      } else {
        passed := passed + [ArtifactMatches, ManifestMatches];
      }
    }
  }
}
