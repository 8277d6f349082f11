/** The services' email test, the regular expression `^[^\s@]+@[^\s@]+\.[^\s@]+$`. */
module EmailFormat {
  import opened JsText

  /** The message both services throw for an address the test rejects. */
  const InvalidEmailFormatMessage := "Invalid email format"

  /** A character of the class `[^\s@]`. */
  predicate EmailChar(c: char) {
    !IsWhitespace(c) && c != '@'
  }

  /** A non-empty run of `[^\s@]`, i.e. `[^\s@]+`. */
  predicate EmailRun(s: string) {
    |s| > 0 && forall k :: 0 <= k < |s| ==> EmailChar(s[k])
  }

  /** The regular expression matches with its `@` at `i` and its `\.` at `j`. */
  predicate MatchesAt(s: string, i: int, j: int) {
    && 0 <= i < j < |s|
    && EmailRun(s[..i]) && s[i] == '@' && EmailRun(s[i + 1..j]) && s[j] == '.' && EmailRun(s[j + 1..])
  }

  /** What the regular expression accepts: some placement of `@` and `\.` splits the whole string into
      three runs of `[^\s@]+`. */
  ghost predicate MatchesEmailRegex(s: string) {
    exists i, j :: MatchesAt(s, i, j)
  }

  /** The test as the services run it: no whitespace anywhere, exactly one `@` and it is not first, and
      after it a `.` that is neither the first nor the last character of the domain. */
  predicate IsEmailFormat(s: string)
    ensures IsEmailFormat(s) ==> 5 <= |s| && s[0] != '@' && s[|s| - 1] != '@'
  {
    && (forall k | 0 <= k < |s| :: !IsWhitespace(s[k]))
    && exists i | 0 < i < |s| ::
         && s[i] == '@'
         && (forall k | 0 <= k < |s| && k != i :: s[k] != '@')
         && exists j | i + 1 < j < |s| - 1 :: s[j] == '.'
  }

  /** The executable test and the regular expression accept the same strings. */
  lemma IsEmailFormatMatchesRegex(s: string)
    ensures IsEmailFormat(s) <==> MatchesEmailRegex(s)
  {
    if IsEmailFormat(s) {
      var i :| 0 < i < |s| && s[i] == '@' && (forall k | 0 <= k < |s| && k != i :: s[k] != '@')
               && exists j | i + 1 < j < |s| - 1 :: s[j] == '.';
      var j :| i + 1 < j < |s| - 1 && s[j] == '.';
      assert EmailRun(s[..i]) by {
        forall k | 0 <= k < i ensures EmailChar(s[..i][k]) { assert s[..i][k] == s[k]; }
      }
      assert EmailRun(s[i + 1..j]) by {
        var domain := s[i + 1..j];
        forall k | 0 <= k < |domain| ensures EmailChar(domain[k]) { assert domain[k] == s[i + 1 + k]; }
      }
      assert EmailRun(s[j + 1..]) by {
        var tld := s[j + 1..];
        forall k | 0 <= k < |tld| ensures EmailChar(tld[k]) { assert tld[k] == s[j + 1 + k]; }
      }
      assert MatchesAt(s, i, j);
    }
    if MatchesEmailRegex(s) {
      var i, j :| MatchesAt(s, i, j);
      forall k | 0 <= k < |s| && k != i && k != j ensures EmailChar(s[k]) {
        if k < i {
          assert s[k] == s[..i][k];
        } else if k < j {
          assert s[k] == s[i + 1..j][k - i - 1];
        } else {
          assert s[k] == s[j + 1..][k - j - 1];
        }
      }
      assert |s[..i]| > 0 && |s[i + 1..j]| > 0 && |s[j + 1..]| > 0;
      assert IsEmailFormat(s) by {
        assert forall k | 0 <= k < |s| && k != i :: s[k] != '@';
        assert i + 1 < j < |s| - 1 && s[j] == '.';
      }
    }
  }

  /** A `+`-tagged address like the ones the services accept passes. */
  lemma AcceptedExample()
    ensures IsEmailFormat("john.doe+tag@example.com")
  {
    var s := "john.doe+tag@example.com";
    assert s[12] == '@' && s[20] == '.';
    assert forall k | 0 <= k < |s| && k != 12 :: s[k] != '@';
  }

  /** A word without `@`, a second `@`, an empty local part, a dot that ends the domain and a space
      each fail. */
  lemma RejectedExamples()
    ensures !IsEmailFormat("invalid-email")
    ensures !IsEmailFormat("a@b@c.com")
    ensures !IsEmailFormat("@example.com")
    ensures !IsEmailFormat("john@example.")
    ensures !IsEmailFormat("john doe@example.com")
  {
    assert "a@b@c.com"[1] == '@' && "a@b@c.com"[3] == '@';
    assert "john doe@example.com"[4] == ' ';
  }
}
