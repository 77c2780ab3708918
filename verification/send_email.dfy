/**
  The send-by-e-mail dialog: checking its two text boxes and turning the
  comma-separated address box into the recipient list.
*/
module SendEmail {
  import opened Text
  import Lists
  import SearchPayload

  /** The file type the dialog starts with. */
  const DefaultFileType := SearchPayload.Csv

  predicate NonEmpty(s: string) {
    s != []
  }

  /** `emails.split(',').map(e => e.trim()).filter(e => e)`. */
  function Recipients(emails: string): seq<string> {
    Lists.Filter(Lists.Map(Split(emails, ','), Trim), NonEmpty)
  }

  /** A recipient as the splitter produces it: non-empty, trimmed and without a comma. */
  predicate IsRecipient(e: string) {
    e != [] && IsTrimmed(e) && ',' !in e
  }

  lemma TrimIsTrimmed(s: string)
    ensures IsTrimmed(Trim(s))
  {
  }

  /** Every character of `Trim(s)` comes from `s`. */
  lemma TrimChars(s: string, j: nat)
    requires j < |Trim(s)|
    ensures Trim(s)[j] in s
  {
    var t := TrimStart(s);
    assert Trim(s) == TrimEnd(t);
    assert Trim(s)[j] == t[j];
    assert t[j] == s[|s| - |t| + j];
  }

  /** Every recipient is non-empty, trimmed and free of commas. */
  lemma RecipientsWellFormed(emails: string)
    ensures forall e :: e in Recipients(emails) ==> IsRecipient(e)
  {
    var pieces := Split(emails, ',');
    var trimmed := Lists.Map(pieces, Trim);
    Lists.FilterMembers(trimmed, NonEmpty);
    forall e | e in Recipients(emails)
      ensures IsRecipient(e)
    {
      var k :| 0 <= k < |trimmed| && trimmed[k] == e;
      TrimIsTrimmed(pieces[k]);
    }
  }

  /** A blank address box yields no recipient. */
  lemma BlankNoRecipients(emails: string)
    ensures Blank(emails) ==> Recipients(emails) == []
  {
    if Recipients(emails) != [] {
      RecipientsNeedText(emails);
    }
  }

  lemma RecipientsNeedText(emails: string)
    requires Recipients(emails) != []
    ensures !Blank(emails)
  {
    var pieces := Split(emails, ',');
    var trimmed := Lists.Map(pieces, Trim);
    Lists.FilterMembers(trimmed, NonEmpty);
    var e := Recipients(emails)[0];
    assert e in Recipients(emails);
    var k :| 0 <= k < |trimmed| && trimmed[k] == e;
    assert e == Trim(pieces[k]) && e != [];
    TrimChars(pieces[k], 0);
    var j :| 0 <= j < |pieces[k]| && pieces[k][j] == e[0];
    SplitPiecesFromSource(emails, ',', k, j);
    var i :| 0 <= i < |emails| && emails[i] == e[0];
    assert !IsSpace(emails[i]);
  }

  /** Splitting the joined list of well-formed addresses gives the list back. */
  lemma RecipientsOfJoin(addresses: seq<string>)
    requires |addresses| >= 1
    requires forall i :: 0 <= i < |addresses| ==> IsRecipient(addresses[i])
    ensures Recipients(Join(addresses, ',')) == addresses
  {
    SplitJoin(addresses, ',');
    var trimmed := Lists.Map(addresses, Trim);
    forall i | 0 <= i < |addresses|
      ensures trimmed[i] == addresses[i]
    {
      TrimOfTrimmed(addresses[i]);
    }
    assert trimmed == addresses;
    Lists.FilterKeepsAll(addresses, NonEmpty);
  }

  /** A box holding only commas and white space yields no recipient. */
  lemma OnlySeparatorsNoRecipients(emails: string)
    requires forall i :: 0 <= i < |emails| ==> emails[i] == ',' || IsSpace(emails[i])
    ensures Recipients(emails) == []
  {
    var pieces := Split(emails, ',');
    var trimmed := Lists.Map(pieces, Trim);
    forall k | 0 <= k < |trimmed|
      ensures !NonEmpty(trimmed[k])
    {
      forall j | 0 <= j < |pieces[k]|
        ensures IsSpace(pieces[k][j])
      {
        SplitPiecesFromSource(emails, ',', k, j);
        assert ',' !in pieces[k];
      }
    }
    Lists.FilterKeepsNone(trimmed, NonEmpty);
  }

  /** What `onSubmit` receives. */
  datatype Submission = Submission(nome: string, enviarPara: seq<string>, tipo: SearchPayload.FileType)

  /** The validation toast shown instead of submitting, or the submission. */
  datatype SubmitOutcome = MissingName | MissingEmails | NoValidEmail | Submitted(submission: Submission)

  /**
    `handleSubmit`: the name is checked first, then the address box, then the split list;
    the name is passed as typed, untrimmed.
  */
  function Submit(nome: string, emails: string, tipo: SearchPayload.FileType): (r: SubmitOutcome)
    ensures r.Submitted? <==> !Blank(nome) && Recipients(emails) != []
    ensures Blank(nome) ==> r == MissingName
    ensures !Blank(nome) && Blank(emails) ==> r == MissingEmails
    ensures r.Submitted? ==> r.submission == Submission(nome, Recipients(emails), tipo)
    ensures r.Submitted? ==> forall e :: e in r.submission.enviarPara ==> IsRecipient(e)
  {
    RecipientsWellFormed(emails);
    BlankNoRecipients(emails);
    if Blank(nome) then MissingName
    else if Blank(emails) then MissingEmails
    else
      var recipients := Recipients(emails);
      if recipients == [] then NoValidEmail
      else Submitted(Submission(nome, recipients, tipo))
  }

  /** Commas alone pass the blank check but are rejected once split. */
  lemma OnlyCommasRejected(nome: string, emails: string, tipo: SearchPayload.FileType)
    requires !Blank(nome) && ',' in emails
    requires forall i :: 0 <= i < |emails| ==> emails[i] == ',' || IsSpace(emails[i])
    ensures Submit(nome, emails, tipo) == NoValidEmail
  {
    OnlySeparatorsNoRecipients(emails);
    assert !AllSpace(emails) by {
      var i :| 0 <= i < |emails| && emails[i] == ',';
    }
  }
}
