/** Canonical identifiers and the framings whose digests name activities, outbox messages and sessions. */
module Identifiers {
  import opened Foundations

  predicate Lower(c: char) { 'a' <= c <= 'z' }

  predicate Digit(c: char) { '0' <= c <= '9' }

  predicate LowerOrDigit(c: char) { Lower(c) || Digit(c) }

  /** `^[a-z][a-z0-9]{1,15}_[a-z0-9][a-z0-9_-]{2,127}$`, with the prefix ending at `cut`. */
  predicate CanonicalAt(id: string, cut: nat) {
    && 2 <= cut <= 16 && cut + 4 <= |id| <= cut + 129
    && Lower(id[0]) && (forall i | 1 <= i < cut :: LowerOrDigit(id[i]))
    && id[cut] == '_' && LowerOrDigit(id[cut + 1])
    && forall i | cut + 2 <= i < |id| :: LowerOrDigit(id[i]) || id[i] == '_' || id[i] == '-'
  }

  predicate CanonicalId(id: string) {
    exists cut | 2 <= cut <= 16 :: CanonicalAt(id, cut)
  }

  lemma CanonicalCharacters(id: string, c: char)
    requires CanonicalId(id) && c in id
    ensures LowerOrDigit(c) || c == '_' || c == '-'
  {
  }

  /** A separator that ends the shorter front part lies inside the longer one. */
  lemma SeparatorPosition(a: string, b: string, c: string, d: string, separator: char)
    requires a + [separator] + b == c + [separator] + d
    ensures |a| < |c| ==> c[|a|] == separator
  {
    var s, t := a + [separator] + b, c + [separator] + d;
    assert s[|a|] == separator;
    assert |a| < |c| ==> t[|a|] == c[|a|];
  }

  /** Cutting at the first separator recovers both sides. */
  lemma CutAtSeparator(a: string, b: string, c: string, d: string, separator: char)
    requires separator !in a && separator !in c
    requires a + [separator] + b == c + [separator] + d
    ensures a == c && b == d
  {
    var s, t := a + [separator] + b, c + [separator] + d;
    SeparatorPosition(a, b, c, d, separator);
    SeparatorPosition(c, d, a, b, separator);
    assert |a| == |c|;
    assert a == s[..|a|] == t[..|c|] == c;
    assert b == s[|a| + 1..] == t[|c| + 1..] == d;
  }

  const NUL := "\0"

  function ActorText(actorId: Option<string>): string {
    if actorId.Some? && actorId.value != "" then actorId.value else "system"
  }

  /** What `activity_id` hashes: project, actor and idempotency key joined by NUL. */
  function ActivityMaterial(projectId: string, actorId: Option<string>, key: string): string {
    projectId + NUL + (ActorText(actorId) + NUL + key)
  }

  function ActivityIdOf(projectId: string, actorId: Option<string>, key: string): string {
    "act_" + Sha256(ActivityMaterial(projectId, actorId, key))
  }

  /** A canonical actor is never the text that stands for no actor. */
  lemma ActorTextInjective(a: Option<string>, b: Option<string>)
    requires a.Some? ==> CanonicalId(a.value)
    requires b.Some? ==> CanonicalId(b.value)
    ensures NUL[0] !in ActorText(a)
    ensures ActorText(a) == ActorText(b) ==> a == b
  {
    forall c | c in ActorText(a) ensures c != NUL[0] {
      if a.Some? {
        CanonicalCharacters(a.value, c);
      }
    }
    forall id | CanonicalId(id) ensures id != "system" && id != "" {
      var cut :| 2 <= cut <= 16 && CanonicalAt(id, cut);
      assert id[cut] == '_';
    }
  }

  /** An activity ID determines the project, the actor and the idempotency key. */
  lemma ActivityIdInjective(p: string, a: Option<string>, k: string, p': string, a': Option<string>, k': string)
    requires CanonicalId(p) && CanonicalId(p')
    requires a.Some? ==> CanonicalId(a.value)
    requires a'.Some? ==> CanonicalId(a'.value)
    ensures ActivityIdOf(p, a, k) == ActivityIdOf(p', a', k') ==> p == p' && a == a' && k == k'
  {
    if ActivityIdOf(p, a, k) == ActivityIdOf(p', a', k') {
      var m, m' := ActivityMaterial(p, a, k), ActivityMaterial(p', a', k');
      assert Sha256(m) == ActivityIdOf(p, a, k)[4..];
      assert Sha256(m') == ActivityIdOf(p', a', k')[4..];
      DigestInjective(m, m');
      NoSeparator(p);
      NoSeparator(p');
      CutAtSeparator(p, ActorText(a) + NUL + k, p', ActorText(a') + NUL + k', NUL[0]);
      ActorTextInjective(a, a');
      ActorTextInjective(a', a);
      CutAtSeparator(ActorText(a), k, ActorText(a'), k', NUL[0]);
    }
  }

  lemma NoSeparator(id: string)
    requires CanonicalId(id)
    ensures NUL[0] !in id && ':' !in id
  {
    forall c | c in id ensures c != NUL[0] && c != ':' {
      CanonicalCharacters(id, c);
    }
  }

  /** The deduplication key of a decision: approval and outcome. */
  function DecisionText(approved: bool): string {
    if approved then "approved" else "rejected"
  }

  function DecisionKey(approvalId: string, approved: bool): string {
    "approval_" + approvalId + "_" + DecisionText(approved)
  }

  function DecisionMessageId(approvalId: string, approved: bool): string {
    "obx_" + Sha256(DecisionKey(approvalId, approved))
  }

  /** Different decisions, or decisions on different approvals, have different outbox messages. */
  lemma DecisionMessageInjective(a: string, x: bool, b: string, y: bool)
    ensures DecisionMessageId(a, x) == DecisionMessageId(b, y) ==> a == b && x == y
  {
    if DecisionMessageId(a, x) == DecisionMessageId(b, y) {
      var s, t := DecisionKey(a, x), DecisionKey(b, y);
      assert Sha256(s) == DecisionMessageId(a, x)[4..] && Sha256(t) == DecisionMessageId(b, y)[4..];
      DigestInjective(s, t);
      assert |s| == |a| + 18 && |t| == |b| + 18;
      assert s[9..|a| + 9] == a && t[9..|b| + 9] == b;
      assert s[|a| + 10] == DecisionText(x)[0] && t[|b| + 10] == DecisionText(y)[0];
    }
  }

  /** What an attachment's activity hashes. */
  function AttachmentActivityId(attachmentId: string, action: string): string {
    "act_" + Sha256(attachmentId + ":" + action)
  }

  lemma AttachmentActivityInjective(a: string, x: string, b: string, y: string)
    requires CanonicalId(a) && CanonicalId(b)
    ensures AttachmentActivityId(a, x) == AttachmentActivityId(b, y) ==> a == b && x == y
  {
    if AttachmentActivityId(a, x) == AttachmentActivityId(b, y) {
      var s, t := a + ":" + x, b + ":" + y;
      assert Sha256(s) == AttachmentActivityId(a, x)[4..] && Sha256(t) == AttachmentActivityId(b, y)[4..];
      DigestInjective(s, t);
      NoSeparator(a);
      NoSeparator(b);
      CutAtSeparator(a, x, b, y, ':');
    }
  }
}
