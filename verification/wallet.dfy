/** The wallet as the tip widgets see it: each awaited request either resolves or throws,
    and the handlers sort a thrown error into "cancelled" or "failed" by searching its
    message for a few words, ignoring letter case. */
module Wallet {
  import opened Text

  /** The two constants every widget is configured with: `RECIPIENT` and `BUILDER_CODE`. */
  datatype TipConfig = TipConfig(recipient: String, builderCode: String)

  /** One awaited request. `Throws` carries the message text the handler extracts from
      the error value. */
  datatype Call = Resolves | Throws(message: String)

  /** `w` occurs somewhere in `s`. */
  predicate Occurs(s: String, w: String)
    decreases |s|
  {
    StartsWith(s, w) || (|s| > 0 && Occurs(s[1..], w))
  }

  /** A regular expression made of the literal word `w` with the `i` flag (for a
      lower-case `w`). */
  predicate OccursIgnoringCase(s: String, w: String) {
    Occurs(ToLower(s), w)
  }

  /** `/user rejected|rejected|denied/i` (src/main.js and public/src/tip.js). */
  predicate IsCancellation(msg: String) {
    OccursIgnoringCase(msg, "user rejected") || OccursIgnoringCase(msg, "rejected")
    || OccursIgnoringCase(msg, "denied")
  }

  /** `/denied|rejected|user/i` (public/script.js). */
  predicate IsScriptCancellation(msg: String) {
    OccursIgnoringCase(msg, "denied") || OccursIgnoringCase(msg, "rejected")
    || OccursIgnoringCase(msg, "user")
  }

  /** An occurrence at offset `k` is an occurrence. */
  lemma {:induction false} OccursAt(s: String, w: String, k: nat)
    requires k <= |s| && StartsWith(s[k..], w)
    ensures Occurs(s, w)
    decreases k
  {
    if k > 0 {
      assert s[1..][k - 1..] == s[k..];
      OccursAt(s[1..], w, k - 1);
    }
  }

  /** Whatever contains `p + w` contains `w`. */
  lemma {:induction false} OccursOfSuffix(s: String, p: String, w: String)
    requires Occurs(s, p + w)
    ensures Occurs(s, w)
    decreases |s|
  {
    if StartsWith(s, p + w) {
      assert s[|p|..][..|w|] == (p + w)[|p|..];
      OccursAt(s, w, |p|);
    } else {
      OccursOfSuffix(s[1..], p, w);
    }
  }

  /** The first alternative of `/user rejected|rejected|denied/i` adds nothing: the
      pattern accepts exactly the messages that mention "rejected" or "denied". */
  lemma CancellationWords(msg: String)
    ensures IsCancellation(msg)
            <==> OccursIgnoringCase(msg, "rejected") || OccursIgnoringCase(msg, "denied")
  {
    if OccursIgnoringCase(msg, "user rejected") {
      assert "user rejected" == "user " + "rejected";
      OccursOfSuffix(ToLower(msg), "user ", "rejected");
    }
  }

  /** Every message the first two widgets treat as a cancellation, public/script.js
      treats as one too. */
  lemma ScriptCancelsAtLeastAsOften(msg: String)
    ensures IsCancellation(msg) ==> IsScriptCancellation(msg)
  {
    CancellationWords(msg);
  }

  /** The converse fails: a message that only mentions "user" is a failure for the first
      two widgets and a cancellation for public/script.js. */
  lemma UserOnlyMessage()
    ensures IsScriptCancellation("user") && !IsCancellation("user")
  {
    assert ToLower("user") == "user";
    assert StartsWith("user", "user");
    assert !Occurs("user", "rejected") && !Occurs("user", "denied") && !Occurs("user", "user rejected") by {
      assert !Occurs("ser", "rejected") && !Occurs("ser", "denied") && !Occurs("ser", "user rejected") by {
        assert !Occurs("er", "rejected") && !Occurs("er", "denied") && !Occurs("er", "user rejected") by {
          assert !Occurs("r", "rejected") && !Occurs("r", "denied") && !Occurs("r", "user rejected") by {
            assert "r"[1..] == "";
            assert !Occurs("", "rejected") && !Occurs("", "denied") && !Occurs("", "user rejected");
          }
          assert "er"[1..] == "r";
        }
        assert "ser"[1..] == "er";
      }
      assert "user"[1..] == "ser";
    }
  }
}
