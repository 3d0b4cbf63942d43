/**
 * The export buttons (components/ExportControls.tsx): a busy guard
 * (`isExporting` is no format or the format being exported), a temporary
 * rewrite of the exported element's `className`, an image or PDF export
 * that may fail, and a restore of both on every exit.
 */
module ExportControls {
  import opened Types

  datatype ExportFormat = Pdf | Jpeg | Png

  // ---------------------------------------------------------------------
  // String.prototype.indexOf and String.prototype.replace (string pattern)
  // ---------------------------------------------------------------------

  predicate OccursAt(s: string, pattern: string, i: int)
  {
    0 <= i && i + |pattern| <= |s| && s[i..i + |pattern|] == pattern
  }

  /** `s.indexOf(pattern, from)` for `from <= |s|`, as an option: the first occurrence at or after `from` (the search `replace` runs from 0). */
  function IndexOf(s: string, pattern: string, from: nat): (r: Option<nat>)
    ensures r.Some? ==>
              from <= r.value && OccursAt(s, pattern, r.value) &&
              forall j :: from <= j < r.value ==> !OccursAt(s, pattern, j)
    ensures r.None? ==> forall j :: from <= j ==> !OccursAt(s, pattern, j)
    decreases |s| - from
  {
    if from + |pattern| > |s| then None
    else if s[from..from + |pattern|] == pattern then Some(from)
    else IndexOf(s, pattern, from + 1)
  }

  /**
   * `s.replace(pattern, replacement)` with a string pattern (and a
   * replacement without `$` patterns): only the first occurrence is
   * replaced; without one, `s` comes back unchanged.
   */
  function ReplaceFirst(s: string, pattern: string, replacement: string): (r: string)
    ensures (forall i :: !OccursAt(s, pattern, i)) ==> r == s
    ensures forall i :: OccursAt(s, pattern, i) && (forall j :: 0 <= j < i ==> !OccursAt(s, pattern, j)) ==>
              r == s[..i] + replacement + s[i + |pattern|..]
  {
    match IndexOf(s, pattern, 0)
    case None => s
    case Some(i) => s[..i] + replacement + s[i + |pattern|..]
  }

  /**
   * The class the element wears while it is captured: a dark opaque
   * background, no blur. A class list with neither class is left as it is.
   */
  function ExportClassName(original: string): (r: string)
    ensures (forall i :: !OccursAt(original, "bg-slate-800/50", i)) && (forall i :: !OccursAt(original, "backdrop-blur-sm", i))
            ==> r == original
  {
    ReplaceFirst(ReplaceFirst(original, "bg-slate-800/50", "bg-slate-900"), "backdrop-blur-sm", "")
  }

  // ---------------------------------------------------------------------
  // The buttons
  // ---------------------------------------------------------------------

  const BaseButtonClass := "flex items-center space-x-2 text-sm font-semibold px-4 py-2 rounded-full transition-all duration-200 focus:outline-none focus:ring-2 focus:ring-offset-2 focus:ring-offset-slate-900 disabled:opacity-50 disabled:cursor-wait"

  function ColorClass(format: ExportFormat): string
  {
    match format
    case Pdf => "bg-red-900/50 text-red-300 hover:bg-red-900/80 focus:ring-red-500"
    case Jpeg => "bg-blue-900/50 text-blue-300 hover:bg-blue-900/80 focus:ring-blue-500"
    case Png => "bg-green-900/50 text-green-300 hover:bg-green-900/80 focus:ring-green-500"
  }

  const BusyClass := "animate-pulse"

  /** The class list ends with the pulse animation. */
  predicate Pulses(cls: string)
  {
    |cls| >= |BusyClass| && cls[|cls| - |BusyClass|..] == BusyClass
  }

  /** `getButtonClass(format)`: the base and colour classes, and a pulse while this format exports. */
  function ButtonClass(format: ExportFormat, isExporting: Option<ExportFormat>): (cls: string)
    ensures |cls| >= |BaseButtonClass| + 1 + |ColorClass(format)| + 1
    ensures cls[..|BaseButtonClass| + 1 + |ColorClass(format)| + 1] == BaseButtonClass + " " + ColorClass(format) + " "
    ensures Pulses(cls) <==> isExporting == Some(format)
  {
    var busy := if isExporting == Some(format) then BusyClass else "";
    var cls := BaseButtonClass + " " + ColorClass(format) + " " + busy;
    assert cls[..|BaseButtonClass| + 1 + |ColorClass(format)| + 1] == BaseButtonClass + " " + ColorClass(format) + " ";
    assert busy == "" ==> cls[|cls| - 1] == ' ';
    cls
  }

  /** The captions a button shows while its own export runs. */
  predicate IsBusyCaption(caption: string)
  {
    caption == "Exporting..." || caption == "Capturing..."
  }

  /** The button's caption: the busy one exactly while this format exports, `Capturing...` only for the capture. */
  function ButtonLabel(format: ExportFormat, isExporting: Option<ExportFormat>): (caption: string)
    ensures IsBusyCaption(caption) <==> isExporting == Some(format)
    ensures caption == "Capturing..." <==> isExporting == Some(format) && format == Png
  {
    if isExporting == Some(format) then
      (if format == Png then "Capturing..." else "Exporting...")
    else
      match format
      case Pdf => "PDF"
      case Jpeg => "JPEG"
      case Png => "Capture"
  }

  datatype Button = Button(disabled: bool, className: string, caption: string)

  /**
   * One of the three buttons: disabled while any export runs
   * (`!!isExporting`), pulsing and showing the busy caption exactly while
   * its own format exports, and always wearing its format's colours.
   */
  function ViewButton(format: ExportFormat, isExporting: Option<ExportFormat>): (b: Button)
    ensures b.disabled <==> isExporting.Some?
    ensures Pulses(b.className) <==> isExporting == Some(format)
    ensures IsBusyCaption(b.caption) <==> isExporting == Some(format)
    ensures var n := |BaseButtonClass| + 1 + |ColorClass(format)| + 1;
            |b.className| >= n && b.className[..n] == BaseButtonClass + " " + ColorClass(format) + " "
  {
    Button(isExporting.Some?, ButtonClass(format, isExporting), ButtonLabel(format, isExporting))
  }

  /** While one format exports, all three buttons are disabled and only its own pulses. */
  lemma OnlyExportingButtonPulses(busy: ExportFormat, format: ExportFormat)
    ensures ViewButton(format, Some(busy)).disabled
    ensures Pulses(ViewButton(format, Some(busy)).className) <==> format == busy
  {
  }

  // ---------------------------------------------------------------------
  // handleExport
  // ---------------------------------------------------------------------

  /** The DOM element the export captures; only its class list is modelled. */
  class Element {
    var className: string

    constructor (className: string)
      ensures this.className == className
    {
      this.className := className;
    }
  }

  const ExportAlert := "Could not export the view. Please try again."

  function FileName(format: ExportFormat): string
  {
    match format
    case Pdf => "dlf-insights-report.pdf"
    case Jpeg => "dlf-insights-capture.jpeg"
    case Png => "dlf-insights-capture.png"
  }

  /** How a call of `handleExport` ends. */
  datatype ExportResult =
    | Ignored                  // busy, or no element attached: nothing happens
    | Saved(fileName: string)  // the file was handed to the browser
    | Alerted(message: string) // the export threw; the user was alerted

  /** What the image or PDF step sees when it runs. */
  datatype Capture = Capture(format: ExportFormat, className: string, isExporting: Option<ExportFormat>)

  class Exporter {
    /** `elementRef.current`. */
    var element: Element?
    /** The `isExporting` state. */
    var isExporting: Option<ExportFormat>

    constructor (element: Element?)
      ensures this.element == element && isExporting == None
    {
      this.element := element;
      isExporting := None;
    }

    /**
     * `handleExport(format)`. The image and PDF generation is not modelled:
     * `captureSucceeds` says whether it completes or throws, and `capture`
     * records what it was given to work on.
     */
    method HandleExport(format: ExportFormat, captureSucceeds: bool) returns (result: ExportResult, capture: Option<Capture>)
      modifies this`isExporting, element
      ensures element == old(element)
      ensures old(element) == null || old(isExporting).Some? ==>
                && result == Ignored && capture == None
                && isExporting == old(isExporting)
                && (element != null ==> element.className == old(element.className))
      ensures old(element) != null && old(isExporting).None? ==>
                && capture == Some(Capture(format, ExportClassName(old(element.className)), Some(format)))
                && result == (if captureSucceeds then Saved(FileName(format)) else Alerted(ExportAlert))
                && isExporting == None
                && element.className == old(element.className)
    {
      if element == null || isExporting.Some? {
        return Ignored, None;
      }
      isExporting := Some(format);
      var target := element;
      var originalClasses := target.className;
      target.className := ExportClassName(originalClasses);
      capture := Some(Capture(format, target.className, isExporting));
      if captureSucceeds {
        result := Saved(FileName(format));
      } else {
        result := Alerted(ExportAlert);
      }
      target.className := originalClasses;
      isExporting := None;
    }
  }
}
