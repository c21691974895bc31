/** The two fetchers of services/dataService.ts, `fetchSheetData` and
    `fetchWorksheetData`.  Each returns the caller's mock list untouched when
    the sheet address is still a placeholder, and otherwise downloads the sheet
    and parses it, falling back to the mock list when the download fails.  The
    download is not modelled: its outcome is a parameter. */
module DataService {
  import opened Text
  import opened Types
  import ResourceParser
  import WorksheetParser

  /** The markers of a sheet address that was never configured. */
  const PlaceholderMarkers: seq<string> := ["YOUR_PUBLISHED", "YOUR_NEW_SHEET_URL", "..."]

  /** The placeholder test of the fetchers: the address is empty or contains one
      of the three placeholder markers. */
  predicate IsPlaceholderUrl(url: string) {
    url == "" || Contains(url, "YOUR_PUBLISHED") || Contains(url, "YOUR_NEW_SHEET_URL") || Contains(url, "...")
  }

  /** An address is a placeholder exactly when it is empty or one of the markers
      occurs in it at some position. */
  lemma PlaceholderIff(url: string)
    ensures IsPlaceholderUrl(url) <==>
      url == "" || exists m, i: nat :: m in PlaceholderMarkers && OccursAt(url, m, i)
  {
    ContainsIff(url, "YOUR_PUBLISHED");
    ContainsIff(url, "YOUR_NEW_SHEET_URL");
    ContainsIff(url, "...");
  }

  /** What the download produced: a failure (network error or a response that
      is not ok), or the response text. */
  datatype FetchOutcome = Failed | Fetched(text: string)

  /** `fetchSheetData(url, mockData)`; `outcome` is what `fetch(url)` would give. */
  method FetchSheetData(url: string, mockData: seq<ResourceItem>, outcome: FetchOutcome) returns (items: seq<ResourceItem>)
    ensures IsPlaceholderUrl(url) ==> items == mockData
    ensures !IsPlaceholderUrl(url) && outcome.Failed? ==> items == mockData
    ensures !IsPlaceholderUrl(url) && outcome.Fetched? ==> items == ResourceParser.ParseResources(outcome.text)
  {
    if IsPlaceholderUrl(url) {
      return mockData;
    }
    match outcome
    case Failed =>
      items := mockData;
    case Fetched(text) =>
      items := ResourceParser.ParseTSV(text);
  }

  /** `fetchWorksheetData(url, mockData)`; `outcome` is what `fetch(url)` would give. */
  method FetchWorksheetData(url: string, mockData: seq<Worksheet>, outcome: FetchOutcome) returns (worksheets: seq<Worksheet>)
    ensures IsPlaceholderUrl(url) ==> worksheets == mockData
    ensures !IsPlaceholderUrl(url) && outcome.Failed? ==> worksheets == mockData
    ensures !IsPlaceholderUrl(url) && outcome.Fetched? ==> worksheets == WorksheetParser.ParseWorksheets(outcome.text)
  {
    if IsPlaceholderUrl(url) {
      return mockData;
    }
    match outcome
    case Failed =>
      worksheets := mockData;
    case Fetched(text) =>
      worksheets := WorksheetParser.ParseWorksheetTSV(text);
  }
}
