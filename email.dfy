/**
 * The servers' e-mail address checks: the format test
 * `/^[^\s@]+@[^\s@]+\.[^\s@]+$/` and the institutional domain test
 * `validDomains.includes(email.split('@')[1])` (server/index.js:157-169;
 * simple-unified-server.js uses the same two tests in its registration handler).
 */
module EmailRules {
  import opened Text

  /** `[^\s@]` for every character. */
  predicate NoSpaceOrAt(s: string)
  {
    forall i :: 0 <= i < |s| ==> !IsJsSpace(s[i]) && s[i] != '@'
  }

  /** `[^\s@]+\.[^\s@]+`: no white space or `@`, and a dot with text on both sides. */
  predicate DottedName(d: string)
  {
    NoSpaceOrAt(d) && exists j :: 0 < j < |d| - 1 && d[j] == '.'
  }

  /** `/^[^\s@]+@[^\s@]+\.[^\s@]+$/.test(email)`. */
  predicate EmailFormatOk(email: string)
  {
    exists i :: 0 < i < |email| && email[i] == '@' && NoSpaceOrAt(email[..i]) && DottedName(email[i + 1..])
  }

  const VALID_DOMAINS: seq<string> := ["bowiestate.edu", "students.bowiestate.edu"]

  /** `validDomains.includes(email.split('@')[1])`; an address without `@` has no second piece. */
  predicate DomainAllowed(email: string)
  {
    var parts := Split(email, '@');
    |parts| > 1 && parts[1] in VALID_DOMAINS
  }

  /** Both checks pass exactly for `<local>@bowiestate.edu` and `<local>@students.bowiestate.edu`
      where the local part is non-empty and holds no white space and no `@`. */
  lemma AcceptedAddress(email: string)
    requires EmailFormatOk(email) && DomainAllowed(email)
    ensures exists i :: 0 < i < |email| && email[i] == '@' && NoSpaceOrAt(email[..i]) && email[i + 1..] in VALID_DOMAINS
  {
    var i :| 0 < i < |email| && email[i] == '@' && NoSpaceOrAt(email[..i]) && DottedName(email[i + 1..]);
    var local, rest := email[..i], email[i + 1..];
    assert '@' !in local by {
      forall k | 0 <= k < |local| ensures local[k] != '@' { }
    }
    assert '@' !in rest by {
      forall k | 0 <= k < |rest| ensures rest[k] != '@' { }
    }
    assert email == local + ['@'] + rest;
    SplitAtFirst(local, rest, '@');
    SplitNone(rest, '@');
  }

  /** Letters and dots are neither white space nor `@`. */
  lemma PlainNameChars(d: string)
    requires forall k :: 0 <= k < |d| ==> ('a' <= d[k] <= 'z' || d[k] == '.')
    ensures NoSpaceOrAt(d)
  {
  }

  lemma ValidDomainShape(domain: string)
    requires domain in VALID_DOMAINS
    ensures DottedName(domain) && '@' !in domain
  {
    PlainNameChars(domain);
    if domain == "bowiestate.edu" {
      assert domain[10] == '.';
    } else {
      assert domain[19] == '.';
    }
  }

  lemma InstitutionalAddress(local: string, domain: string)
    requires local != [] && NoSpaceOrAt(local) && domain in VALID_DOMAINS
    ensures EmailFormatOk(local + "@" + domain) && DomainAllowed(local + "@" + domain)
  {
    var email := local + "@" + domain;
    var i := |local|;
    assert email[..i] == local;
    assert email[i] == '@';
    assert email[i + 1..] == domain;
    ValidDomainShape(domain);
    assert '@' !in local by {
      forall k | 0 <= k < |local| ensures local[k] != '@' { }
    }
    assert email == local + ['@'] + domain;
    SplitAtFirst(local, domain, '@');
    SplitNone(domain, '@');
  }
}
