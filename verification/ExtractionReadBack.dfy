/** The two stores of an extraction against each other: what a reader of the frozen
    file gets is what the cache row holds. */
module ExtractionReadBack {
  import opened Wrappers
  import opened FrozenMarkdown
  import opened FrozenQuotes
  import opened FrozenWhole
  import opened Extraction
  import Safety = ExtractionSafety
  import FrozenFiles = ExtractionFrozen

  /** What a reader finds at an article's path: the text of a whole file, or nothing. */
  function FileText(nf: NumberFormat, s: State, doi: string): Option<string> {
    var name := Published(FileName(doi));
    if name in s.files && s.files[name].Whole? then Some(s.files[name].frozen.Contents(nf)) else None
  }

  /** A result whose quotes survive the file format: see FrozenWhole.QuotesReadBack. */
  ghost predicate Printable(nf: NumberFormat, f: Frozen) {
    && f.record.article.doi != ""
    && FrozenMarkdown.Sound(nf, f.result.quotes)
    && !PosesAsQuotes(f.record.article, f.result) && AllSingleLine(f.result.quotes)
  }

  lemma ReadsFrozen(nf: NumberFormat, doi: string, f: Frozen)
    requires Printable(nf, f) && doi != ""
    ensures ReadQuotes(nf, doi, Some(f.Contents(nf))) == Some(KeptQuotes(f.result.quotes))
  {
    QuotesReadBack(nf, f.record, f.result);
  }

  /** With timely owners and distinct file names, reading back the file of a done
      article returns the quotes of its row, in order. */
  lemma DoneQuotesReadBack(nf: NumberFormat, s: State, actions: seq<Action>, a: nat)
    requires Initial(s) && Safety.TimelyRun(s, actions) && FrozenFiles.NamesDistinct(Run(s, actions))
    requires Safety.IsDone(Run(s, actions), a)
    ensures var t := Run(s, actions);
      && a in t.articles && FileText(nf, t, t.articles[a].doi).Some?
      && (t.articles[a].doi != "" && Printable(nf, t.files[Published(FileName(t.articles[a].doi))].frozen) ==>
            ReadQuotes(nf, t.articles[a].doi, FileText(nf, t, t.articles[a].doi)) == Some(KeptQuotes(t.rows[a].quotes)))
  {
    FrozenFiles.FileMatchesRow(s, actions, a);
    var t := Run(s, actions);
    var f := t.files[Published(FileName(t.articles[a].doi))].frozen;
    if t.articles[a].doi != "" && Printable(nf, f) {
      ReadsFrozen(nf, t.articles[a].doi, f);
    }
  }
}
