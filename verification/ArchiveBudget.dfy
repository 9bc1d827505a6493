/** The per-input limits on password attempts. */
module ArchiveBudget {

  const MAX_ATTEMPTS: nat := 256
  const MAX_KDF_ATTEMPTS: nat := 16

  /** How one bounded attempt ends; a dictionary refusal says nothing about the candidate and ends the search. */
  datatype Attempt = Hit | Miss | Stall | DictionaryCap

  /** One decoder started for this input. */
  datatype Launch = Launch(kdf: bool, attempt: Attempt)

  function KdfLaunches(launches: seq<Launch>): nat {
    if launches == [] then 0
    else KdfLaunches(launches[..|launches| - 1]) + if launches[|launches| - 1].kdf then 1 else 0
  }

  predicate Stalled(launches: seq<Launch>) {
    launches != [] && launches[|launches| - 1].attempt.Stall?
  }

  /** Both caps hold, and nothing was started after a stall. */
  ghost predicate WithinBudget(launches: seq<Launch>) {
    && |launches| <= MAX_ATTEMPTS && KdfLaunches(launches) <= MAX_KDF_ATTEMPTS
    && forall i :: 0 <= i < |launches| - 1 ==> !launches[i].attempt.Stall?
  }

  lemma LaunchOneMore(launches: seq<Launch>, l: Launch)
    ensures KdfLaunches(launches + [l]) == KdfLaunches(launches) + if l.kdf then 1 else 0
    ensures Stalled(launches + [l]) == l.attempt.Stall?
    ensures (&& WithinBudget(launches) && !Stalled(launches) && |launches| < MAX_ATTEMPTS
             && (l.kdf ==> KdfLaunches(launches) < MAX_KDF_ATTEMPTS))
            ==> WithinBudget(launches + [l])
  {
    assert (launches + [l])[..|launches|] == launches;
  }

  /** The decoders that the candidates up to `n` start. */
  function Launched(kdf: bool, answers: seq<Attempt>, n: nat): seq<Launch>
    requires n <= |answers|
  {
    seq(n, i requires 0 <= i < n => Launch(kdf, answers[i]))
  }

  lemma LaunchedOneMore(before: seq<Launch>, kdf: bool, answers: seq<Attempt>, n: nat)
    requires n < |answers|
    ensures before + Launched(kdf, answers, n + 1) == before + Launched(kdf, answers, n) + [Launch(kdf, answers[n])]
  {
  }

  /** Candidate `h` is reached and works: all before it miss, the deadline has not passed, and the budget that
      is left after `before` suffices. */
  ghost predicate Reaches(before: seq<Launch>, kdf: bool, answers: seq<Attempt>, expired: seq<bool>, h: nat)
    requires |expired| == |answers|
  {
    && h < |answers| && answers[h].Hit? && (forall i :: 0 <= i < h ==> answers[i].Miss?)
    && (forall i :: 0 <= i <= h ==> !expired[i])
    && !Stalled(before) && |before| + h < MAX_ATTEMPTS && (kdf ==> KdfLaunches(before) + h < MAX_KDF_ATTEMPTS)
  }

  class Budget {
    var decryptAttempts: nat
    var kdfAttempts: nat
    var decryptStalled: bool
    /** Every decoder started for this input, in order. */
    ghost var launches: seq<Launch>

    /** The counters and the latch describe the launches, which stay within budget. */
    ghost predicate Valid()
      reads this
    {
      && WithinBudget(launches) && decryptAttempts == |launches| && kdfAttempts == KdfLaunches(launches)
      && decryptStalled == Stalled(launches)
    }

    constructor ()
      ensures Valid() && launches == []
    {
      decryptAttempts, kdfAttempts, decryptStalled, launches := 0, 0, false, [];
    }

    /** Tries the candidates in order, for a member or for a whole archive.  `answers[i]` is how an attempt with
        candidate `i` would end and `expired[i]` whether the deadline has passed before it.  The result is the
        first candidate that works, and none exactly when no candidate that works is reached; `tried` counts the
        decoders started, and none is started after a stall or behind the deadline. */
    method TryCandidates(kdf: bool, answers: seq<Attempt>, expired: seq<bool>) returns (found: int, ghost tried: nat)
      requires Valid() && |expired| == |answers|
      modifies this
      ensures Valid() && tried <= |answers| && launches == old(launches) + Launched(kdf, answers, tried)
      ensures -1 <= found < |answers| && (found >= 0 ==> answers[found].Hit? && tried == found + 1)
      ensures forall i :: 0 <= i < tried - 1 ==> answers[i].Miss?
      ensures forall i :: 0 <= i < tried ==> !expired[i]
      ensures forall h: nat :: found == h <==> Reaches(old(launches), kdf, answers, expired, h)
      ensures found < 0 ==>
                || (tried == |answers| && forall i :: 0 <= i < tried ==> answers[i].Miss?)
                || (tried > 0 && (answers[tried - 1].Stall? || answers[tried - 1].DictionaryCap?))
                || (tried < |answers| && (expired[tried] || DecryptExhausted() || (kdf && KdfExhausted())))
      ensures old(decryptStalled) ==> tried == 0
    {
      hide WithinBudget, KdfLaunches, Stalled, Launched;
      var i := 0;
      NoneLaunched(launches, kdf, answers);
      while i < |answers|
        invariant 0 <= i <= |answers| && Valid() && launches == old(launches) + Launched(kdf, answers, i)
        invariant forall k :: 0 <= k < i ==> answers[k].Miss? && !expired[k]
        invariant decryptAttempts == |old(launches)| + i && decryptStalled == old(decryptStalled)
        invariant kdfAttempts == KdfLaunches(old(launches)) + if kdf then i else 0
        invariant old(decryptStalled) ==> i == 0 && decryptStalled
      {
        if expired[i] || DecryptExhausted() {
          return -1, i;
        }
        if kdf && KdfExhausted() {
          return -1, i;
        }
        LaunchedOneMore(old(launches), kdf, answers, i);
        LaunchOneMore(launches, Launch(kdf, answers[i]));
        RunAttempt(kdf, answers[i]);
        if answers[i].Stall? || answers[i].DictionaryCap? {
          return -1, i + 1;
        }
        if answers[i].Hit? {
          return i, i + 1;
        }
        i := i + 1;
      }
      return -1, i;
    }

    predicate KdfExhausted()
      reads this
    {
      kdfAttempts >= MAX_KDF_ATTEMPTS
    }

    predicate DecryptExhausted()
      reads this
    {
      decryptStalled || decryptAttempts >= MAX_ATTEMPTS
    }

    /** Counts the attempt, runs it, and latches a stall: the decoder that stalled is still running. */
    method RunAttempt(kdf: bool, attempt: Attempt)
      requires Valid() && !DecryptExhausted() && (kdf ==> !KdfExhausted())
      modifies this
      ensures Valid() && launches == old(launches) + [Launch(kdf, attempt)]
    {
      hide WithinBudget, KdfLaunches, Stalled;
      LaunchOneMore(launches, Launch(kdf, attempt));
      decryptAttempts := decryptAttempts + 1;
      if kdf {
        kdfAttempts := kdfAttempts + 1;
      }
      launches := launches + [Launch(kdf, attempt)];
      if attempt.Stall? {
        decryptStalled := true;
      }
    }
  }

  lemma NoneLaunched(launches: seq<Launch>, kdf: bool, answers: seq<Attempt>)
    ensures launches + Launched(kdf, answers, 0) == launches
  {
  }
}
