/**
  The two e-mail address patterns of the client, written out as predicates: the
  new-user form's `/^[A-Z0-9._%+-]+@[A-Z0-9.-]+\.[A-Z]{2,}$/i`, and the stricter
  pattern shared by the login and forgot-password pages,
  `/^(?!.*\.\.)[a-zA-Z0-9][a-zA-Z0-9._%+-]{0,63}@[a-zA-Z0-9.-]+\.[a-zA-Z]{2,}$/`.
  A pattern matches when SOME choice of the `@` and of the final dot fits, as the
  backtracking matcher finds it.
*/
module EmailRules {
  import opened Text

  predicate IsAlnum(c: char) {
    IsAsciiLetter(c) || IsDigit(c)
  }

  /** `[A-Za-z0-9._%+-]`. */
  predicate LocalChar(c: char) {
    IsAlnum(c) || c == '.' || c == '_' || c == '%' || c == '+' || c == '-'
  }

  /** `[A-Za-z0-9.-]`. */
  predicate DomainChar(c: char) {
    IsAlnum(c) || c == '.' || c == '-'
  }

  /**
    `@` at `at`, the final `.` at `dot`: a non-empty domain run between them and at least
    two letters after the dot up to the end.
  */
  predicate DomainTail(s: string, at: nat, dot: nat) {
    && at < dot < |s|
    && s[at] == '@'
    && at + 1 < dot
    && (forall i :: at < i < dot ==> DomainChar(s[i]))
    && s[dot] == '.'
    && |s| - dot - 1 >= 2
    && (forall i :: dot < i < |s| ==> IsAsciiLetter(s[i]))
  }

  /** The new-user form's pattern: a non-empty local part of `LocalChar`s, then the tail. */
  predicate FormEmail(s: string) {
    exists at: nat, dot: nat | at < dot < |s| ::
      && 0 < at
      && (forall i :: 0 <= i < at ==> LocalChar(s[i]))
      && DomainTail(s, at, dot)
  }

  /** `(?!.*\.\.)`: no two dots in a row anywhere. */
  predicate NoDoubleDot(s: string) {
    forall i :: 0 <= i < |s| - 1 ==> !(s[i] == '.' && s[i + 1] == '.')
  }

  /**
    The login pattern: no `..`, a local part of 1 to 64 characters starting with a letter
    or digit, then the same tail.
  */
  predicate LoginEmail(s: string) {
    && NoDoubleDot(s)
    && exists at: nat, dot: nat | at < dot < |s| ::
      && 1 <= at <= 64
      && IsAlnum(s[0])
      && (forall i :: 1 <= i < at ==> LocalChar(s[i]))
      && DomainTail(s, at, dot)
  }

  /** Every address the login page accepts, the new-user form accepts too. */
  lemma LoginEmailIsFormEmail(s: string)
    requires LoginEmail(s)
    ensures FormEmail(s)
  {
    var at: nat, dot: nat :| at < dot < |s| && 1 <= at <= 64 && IsAlnum(s[0])
      && (forall i :: 1 <= i < at ==> LocalChar(s[i])) && DomainTail(s, at, dot);
    assert forall i :: 0 <= i < at ==> LocalChar(s[i]);
  }

  /** An address is not accepted by the login page when it holds `..` anywhere. */
  lemma DoubleDotRejected(s: string, i: nat)
    requires i + 1 < |s| && s[i] == '.' && s[i + 1] == '.'
    ensures !LoginEmail(s)
  {
  }

  /** The login pattern rejects a local part that starts with a dot, which the form pattern allows. */
  lemma LeadingDotRejectedByLogin(s: string)
    requires |s| > 0 && s[0] == '.'
    ensures !LoginEmail(s)
  {
  }

  /** Around a fitting `@` and dot, no other character is an `@`. */
  lemma OnlyOneAt(s: string, at: nat, dot: nat)
    requires DomainTail(s, at, dot)
    requires forall i :: 0 <= i < at ==> LocalChar(s[i]) || (i == 0 && IsAlnum(s[0]))
    ensures forall j :: 0 <= j < |s| && s[j] == '@' ==> j == at
  {
    forall j | 0 <= j < |s| && j != at
      ensures s[j] != '@'
    {
      if at < j < dot {
        assert DomainChar(s[j]);
      } else if j > dot {
        assert IsAsciiLetter(s[j]);
      }
    }
  }

  /** In an address the form accepts, the `@` is the only one and the local part is non-empty. */
  lemma AtIsUnique(s: string)
    requires FormEmail(s)
    ensures exists at :: 0 < at < |s| && s[at] == '@' && forall j :: 0 <= j < |s| && s[j] == '@' ==> j == at
  {
    var at: nat, dot: nat :| at < dot < |s| && 0 < at
      && (forall i :: 0 <= i < at ==> LocalChar(s[i])) && DomainTail(s, at, dot);
    OnlyOneAt(s, at, dot);
  }

  /** The login pattern bounds the local part at 64 characters: the `@` comes at index 64 at the latest. */
  lemma LoginLocalPartBounded(s: string, j: nat)
    requires LoginEmail(s) && j < |s| && s[j] == '@'
    ensures 1 <= j <= 64
  {
    var at: nat, dot: nat :| at < dot < |s| && 1 <= at <= 64 && IsAlnum(s[0])
      && (forall i :: 1 <= i < at ==> LocalChar(s[i])) && DomainTail(s, at, dot);
    OnlyOneAt(s, at, dot);
  }

  /** Building an address from a well-formed local part, domain and top-level domain is accepted by the form. */
  lemma FormAcceptsBuiltAddress(local: string, domain: string, tld: string)
    requires |local| > 0 && forall i :: 0 <= i < |local| ==> LocalChar(local[i])
    requires |domain| > 0 && forall i :: 0 <= i < |domain| ==> DomainChar(domain[i])
    requires |tld| >= 2 && forall i :: 0 <= i < |tld| ==> IsAsciiLetter(tld[i])
    ensures FormEmail(local + "@" + domain + "." + tld)
  {
    var s := local + "@" + domain + "." + tld;
    var at := |local|;
    var dot := |local| + 1 + |domain|;
    assert forall i :: 0 <= i < at ==> s[i] == local[i];
    assert forall i :: at < i < dot ==> s[i] == domain[i - at - 1];
    assert forall i :: dot < i < |s| ==> s[i] == tld[i - dot - 1];
    assert DomainTail(s, at, dot);
  }
}
