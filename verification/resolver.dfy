/** `resolveAttachmentPath` (app/api/send-failed-billing/route.ts): an
    explicit path wins outright, otherwise the first existing entry of a
    fixed candidate list, otherwise nothing. The filesystem is the oracle
    `fileExists`; the result records which paths were probed, so that
    "no existence check" is a statement about the model. */
module Resolver {
  import opened Wrappers
  import Paths
  import Search

  const CwdAttachment := "attachments/abdu-support-invoice.pdf"
  const CwdStyledInvoice := "public/invoices/abdu-support-invoice-styled.pdf"
  const SandboxAttachment := "/mnt/data/abdu-support-invoice.pdf"
  const SandboxStyledInvoice := "/mnt/data/abdu-support-invoice-styled.pdf"

  /** The fallback locations, in the order they are tried: two under the
      working directory, then two fixed sandbox paths. */
  function Candidates(cwd: string): (cs: seq<string>)
    ensures |cs| == 4
    ensures cs[0] == Paths.ResolveAgainst(cwd, CwdAttachment)
    ensures cs[1] == Paths.ResolveAgainst(cwd, CwdStyledInvoice)
    ensures cs[2] == SandboxAttachment && cs[3] == SandboxStyledInvoice
    ensures Paths.IsAbsolute(cwd) ==> forall i :: 0 <= i < |cs| ==> Paths.IsAbsolute(cs[i])
  {
    [ Paths.ResolveAgainst(cwd, CwdAttachment),
      Paths.ResolveAgainst(cwd, CwdStyledInvoice),
      SandboxAttachment,
      SandboxStyledInvoice ]
  }

  /** The path found, and every path whose existence was checked, in order. */
  datatype Resolution = Resolution(path: Option<string>, probed: seq<string>)

  /** `attachPath` is truthy: present and not the empty string. */
  predicate IsExplicit(attachPath: Option<string>) {
    attachPath.Some? && attachPath.value != ""
  }

  /** The fallback search over `cands`. */
  function SearchCandidates(cands: seq<string>, fileExists: string -> bool): (r: Resolution)
    ensures r.path.Some? ==>
      exists k :: Search.IsFirst(cands, fileExists, k) && r.path.value == cands[k] && r.probed == cands[..k + 1]
    ensures r.path.None? <==> Search.NoneMatch(cands, fileExists)
    ensures r.path.None? ==> r.probed == cands
    ensures r.path.Some? ==> r.path.value in cands && fileExists(r.path.value)
    ensures forall j :: 0 <= j < |r.probed| - 1 ==> !fileExists(r.probed[j])
  {
    match Search.FirstIndex(cands, fileExists)
    case Some(k) => Resolution(Some(cands[k]), cands[..k + 1])
    case None => Resolution(None, cands)
  }

  /** `resolveAttachmentPath(attachPath)` with `process.cwd()` as `cwd`. */
  function ResolveAttachmentPath(attachPath: Option<string>, cwd: string, fileExists: string -> bool): (r: Resolution)
    ensures IsExplicit(attachPath) ==> r.probed == [] && r.path.Some?
    ensures IsExplicit(attachPath) && Paths.IsAbsolute(attachPath.value) ==> r.path == attachPath
    ensures IsExplicit(attachPath) && !Paths.IsAbsolute(attachPath.value) ==>
      r.path == Some(Paths.ResolveAgainst(cwd, attachPath.value))
    ensures !IsExplicit(attachPath) ==> r == SearchCandidates(Candidates(cwd), fileExists)
  {
    if IsExplicit(attachPath) && Paths.IsAbsolute(attachPath.value) then Resolution(attachPath, [])
    else if IsExplicit(attachPath) then Resolution(Some(Paths.ResolveAgainst(cwd, attachPath.value)), [])
    else SearchCandidates(Candidates(cwd), fileExists)
  }

  /** An explicit path is returned whatever the disk holds: the result does
      not depend on the existence oracle at all. */
  lemma ExplicitPathIgnoresDisk(attachPath: Option<string>, cwd: string, e1: string -> bool, e2: string -> bool)
    requires IsExplicit(attachPath)
    ensures ResolveAttachmentPath(attachPath, cwd, e1) == ResolveAttachmentPath(attachPath, cwd, e2)
  {
  }

  /** An empty `attachPath` is falsy and behaves exactly like an absent one. */
  lemma EmptyPathIsAbsent(cwd: string, fileExists: string -> bool)
    ensures ResolveAttachmentPath(Some(""), cwd, fileExists) == ResolveAttachmentPath(None, cwd, fileExists)
  {
  }

  /** Without an explicit path, an existing candidate is never passed over:
      the result is that candidate or an existing one listed before it. */
  lemma NoLaterCandidate(cwd: string, fileExists: string -> bool, i: int)
    requires 0 <= i < 4 && fileExists(Candidates(cwd)[i])
    ensures ResolveAttachmentPath(None, cwd, fileExists).path.Some?
    ensures exists k :: 0 <= k <= i && ResolveAttachmentPath(None, cwd, fileExists).path == Some(Candidates(cwd)[k])
  {
    var cs := Candidates(cwd);
    Search.FirstIndexNoLater(cs, fileExists, i);
    var k := Search.FirstIndex(cs, fileExists).value;
    assert ResolveAttachmentPath(None, cwd, fileExists).path == Some(cs[k]);
  }

  /** With no explicit path and nothing on disk at any candidate, the result
      is null after probing all four candidates in order. */
  lemma NothingFound(cwd: string, fileExists: string -> bool)
    requires forall i :: 0 <= i < 4 ==> !fileExists(Candidates(cwd)[i])
    ensures ResolveAttachmentPath(None, cwd, fileExists) == Resolution(None, Candidates(cwd))
  {
  }

  /** Whenever the working directory is absolute, so is every resolved path. */
  lemma ResolvedIsAbsolute(attachPath: Option<string>, cwd: string, fileExists: string -> bool)
    requires Paths.IsAbsolute(cwd)
    ensures var r := ResolveAttachmentPath(attachPath, cwd, fileExists);
      r.path.Some? ==> Paths.IsAbsolute(r.path.value)
  {
  }

  /** The source's `for … of` loop with its early `return`, over any
      candidate list. */
  method FirstExistingLoop(cands: seq<string>, fileExists: string -> bool) returns (path: Option<string>)
    ensures path.Some? ==> exists k :: Search.IsFirst(cands, fileExists, k) && path.value == cands[k]
    ensures path.None? ==> Search.NoneMatch(cands, fileExists)
    ensures path == SearchCandidates(cands, fileExists).path
  {
    var i := 0;
    while i < |cands|
      invariant 0 <= i <= |cands|
      invariant forall j :: 0 <= j < i ==> !fileExists(cands[j])
    {
      if fileExists(cands[i]) {
        Search.FirstIndexUnique(cands, fileExists, i);
        return Some(cands[i]);
      }
      i := i + 1;
    }
    return None;
  }

  /** `resolveAttachmentPath` written as the source writes it: two early
      returns for an explicit path, then the loop over the candidates. */
  method ResolveAttachmentPathLoop(attachPath: Option<string>, cwd: string, fileExists: string -> bool)
    returns (path: Option<string>)
    ensures IsExplicit(attachPath) ==> path.Some?
    ensures !IsExplicit(attachPath) && path.Some? ==>
      exists k :: Search.IsFirst(Candidates(cwd), fileExists, k) && path.value == Candidates(cwd)[k]
    ensures !IsExplicit(attachPath) && path.None? ==> Search.NoneMatch(Candidates(cwd), fileExists)
    ensures path == ResolveAttachmentPath(attachPath, cwd, fileExists).path
  {
    if IsExplicit(attachPath) && Paths.IsAbsolute(attachPath.value) {
      return attachPath;
    }
    if IsExplicit(attachPath) {
      return Some(Paths.ResolveAgainst(cwd, attachPath.value));
    }
    path := FirstExistingLoop(Candidates(cwd), fileExists);
  }
}
