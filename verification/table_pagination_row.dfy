/**
  The pagination row of the tables (client/src/components/common/TablePaginationRow.tsx):
  a "Page X of Y" label and Previous/Next buttons that are disabled, and drawn
  in the "soft" variant, when there is no page in that direction or a load is
  under way.
*/
module TablePaginationRow {
  import opened Types
  import Text

  /** The callback a button's `onClick` is bound to. */
  datatype Handler = OnPrevPage | OnNextPage

  datatype Variant = Soft | Surface

  datatype PageButton = PageButton(text: string, disabled: bool, variant: Variant, onClick: Handler)

  datatype RowView = RowView(caption: string, previous: PageButton, next: PageButton, spinnerLoading: bool)

  function PageLabel(currentPage: int, totalPages: int): string
  {
    "Page " + Text.IntToDecimal(currentPage) + " of " + Text.IntToDecimal(totalPages)
  }

  function PageButtonFor(text: string, available: bool, isLoading: bool, onClick: Handler): (b: PageButton)
    ensures b.text == text && b.onClick == onClick
    ensures b.disabled <==> !available || isLoading
    ensures b.variant == Soft <==> b.disabled
  {
    var disabled := !available || isLoading;
    PageButton(text, disabled, if disabled then Soft else Surface, onClick)
  }

  /** The row for the given pagination props and loading flag. */
  function Render(p: PaginationData, isLoading: bool): (r: RowView)
    ensures r.caption == PageLabel(p.currentPage, p.totalPages)
    ensures r.previous.text == "Previous" && r.next.text == "Next"
    ensures r.previous.disabled <==> !p.hasPrev || isLoading
    ensures r.next.disabled <==> !p.hasNext || isLoading
    ensures r.previous.variant == Soft <==> r.previous.disabled
    ensures r.next.variant == Soft <==> r.next.disabled
    ensures r.spinnerLoading == isLoading
  {
    RowView(
      PageLabel(p.currentPage, p.totalPages),
      PageButtonFor("Previous", p.hasPrev, isLoading, OnPrevPage),
      PageButtonFor("Next", p.hasNext, isLoading, OnNextPage),
      isLoading)
  }

  /** What a click on a button invokes: its own callback when enabled, nothing when disabled. */
  function Click(b: PageButton): (h: Option<Handler>)
    ensures h.Some? <==> !b.disabled
    ensures h.Some? ==> h.value == b.onClick
  {
    if b.disabled then None else Some(b.onClick)
  }

  /** Previous invokes onPrevPage and Next invokes onNextPage, each exactly when it is enabled. */
  lemma ClicksReachTheirCallbacks(p: PaginationData, isLoading: bool)
    ensures Click(Render(p, isLoading).previous) == (if p.hasPrev && !isLoading then Some(OnPrevPage) else None)
    ensures Click(Render(p, isLoading).next) == (if p.hasNext && !isLoading then Some(OnNextPage) else None)
  {
  }

  /** Reads the two numbers back from a "Page X of Y" label. */
  function ParsePageLabel(caption: string): Option<(int, int)>
  {
    match Text.StripPrefix("Page ", caption)
    case None => None
    case Some(rest) =>
      var (current, tail) := Text.SplitAt(rest, ' ');
      match Text.StripPrefix(" of ", tail)
      case None => None
      case Some(total) =>
        match (Text.ParseDecimal(current), Text.ParseDecimal(total))
        case (Some(c), Some(t)) => Some((c, t))
        case _ => None
  }

  /** The label states the current page and the total page count, and both can be read back. */
  lemma PageLabelRoundTrip(currentPage: int, totalPages: int)
    ensures ParsePageLabel(PageLabel(currentPage, totalPages)) == Some((currentPage, totalPages))
  {
    var c := Text.IntToDecimal(currentPage);
    var t := Text.IntToDecimal(totalPages);
    assert PageLabel(currentPage, totalPages) == "Page " + (c + (" of " + t));
    Text.StripPrefixOf("Page ", c + (" of " + t));
    Text.SplitAtOf(c, " of " + t, ' ');
    Text.StripPrefixOf(" of ", t);
    Text.IntToDecimalRoundTrip(currentPage);
    Text.IntToDecimalRoundTrip(totalPages);
  }
}
