/** The default retry policy: a ceiling on the chain, and a list of failures that
    no retry can mend. Pure functions of the step and the reason. */
module RetryPolicy {

  const PERMANENT: seq<string> :=
    ["provider auth", "unknown provider", "unknown model", "no provider on step", "invalid event_stream"]

  function Lower(c: char): char { if 'A' <= c <= 'Z' then ((c as int) + 32) as char else c }

  function ToLower(s: string): (r: string)
    ensures |r| == |s| && forall i | 0 <= i < |s| :: r[i] == Lower(s[i])
  {
    if s == [] then [] else [Lower(s[0])] + ToLower(s[1..])
  }

  predicate OccursAt(s: string, part: string, i: int) {
    0 <= i <= |s| - |part| && s[i..i + |part|] == part
  }

  predicate Contains(s: string, part: string) {
    exists i | 0 <= i <= |s| :: OccursAt(s, part, i)
  }

  predicate PermanentFailure(reason: string) {
    exists i | 0 <= i < |PERMANENT| :: Contains(ToLower(reason), PERMANENT[i])
  }

  predicate ShouldRetry(maxRetries: int, retryCount: nat, reason: string) {
    maxRetries > 0 && retryCount < maxRetries && !PermanentFailure(reason)
  }

  /** The verdict does not depend on the case of the reason, nor on what surrounds it. */
  lemma PermanenceSurvivesWrapping(before: string, reason: string, after: string)
    requires PermanentFailure(reason)
    ensures PermanentFailure(before + reason + after)
  {
    var i :| 0 <= i < |PERMANENT| && Contains(ToLower(reason), PERMANENT[i]);
    var part := PERMANENT[i];
    var k :| 0 <= k <= |reason| && OccursAt(ToLower(reason), part, k);
    var whole := ToLower(before + reason + after);
    var at := |before| + k;
    assert whole[at..at + |part|] == part by {
      forall j | 0 <= j < |part| ensures whole[at + j] == part[j] {
        assert whole[at + j] == Lower((before + reason + after)[at + j]) == Lower(reason[k + j]);
        assert part[j] == ToLower(reason)[k..k + |part|][j] == ToLower(reason)[k + j];
      }
    }
    assert OccursAt(whole, part, at);
    assert Contains(whole, part);
  }

  // ---- which failures are worth another attempt ----

  /** The reason holds this text somewhere, in capitals or not. */
  predicate Names(reason: string, text: string) {
    exists k | 0 <= k <= |reason| :: NamesAt(reason, text, k)
  }

  predicate NamesAt(reason: string, text: string, k: int) {
    0 <= k <= |reason| - |text| && forall j | 0 <= j < |text| :: SameLetter(reason[k + j], text[j])
  }

  /** One letter spells the other, in lower case or in upper case. */
  predicate SameLetter(c: char, lower: char) { c == lower || ('A' <= c <= 'Z' && (c as int) + 32 == lower as int) }

  /** None of what no retry can mend. */
  predicate IsTransient(reason: string) {
    && !Names(reason, "provider auth") && !Names(reason, "unknown provider") && !Names(reason, "unknown model")
    && !Names(reason, "no provider on step") && !Names(reason, "invalid event_stream")
  }

  predicate IsLower(text: string) { forall j | 0 <= j < |text| :: !('A' <= text[j] <= 'Z') }

  lemma ContainsIffNames(reason: string, text: string)
    requires IsLower(text)
    ensures Contains(ToLower(reason), text) <==> Names(reason, text)
  {
    var r := ToLower(reason);
    forall k | 0 <= k <= |reason| ensures OccursAt(r, text, k) <==> NamesAt(reason, text, k) {
      if OccursAt(r, text, k) {
        forall j | 0 <= j < |text| ensures SameLetter(reason[k + j], text[j]) {
          assert r[k..k + |text|][j] == r[k + j];
        }
      }
      if NamesAt(reason, text, k) {
        assert forall j | 0 <= j < |text| :: r[k + j] == text[j];
        assert r[k..k + |text|] == text;
      }
    }
  }

  /** A failed Step is retried exactly when there are attempts left and its reason names
      none of the five texts, in whatever case. */
  lemma RetriedIffTransient(maxRetries: int, retryCount: nat, reason: string)
    ensures ShouldRetry(maxRetries, retryCount, reason) <==> retryCount < maxRetries && IsTransient(reason)
  {
    forall i | 0 <= i < |PERMANENT| ensures IsLower(PERMANENT[i]) {}
    forall i | 0 <= i < |PERMANENT| ensures Contains(ToLower(reason), PERMANENT[i]) <==> Names(reason, PERMANENT[i]) {
      ContainsIffNames(reason, PERMANENT[i]);
    }
    hide Names, Contains;
    assert PERMANENT[0] == "provider auth" && PERMANENT[1] == "unknown provider" && PERMANENT[2] == "unknown model";
    assert PERMANENT[3] == "no provider on step" && PERMANENT[4] == "invalid event_stream";
  }
}
