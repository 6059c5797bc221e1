/**
 * The data-upload page (src/pages/Upload.tsx): two drop zones, one for the
 * product catalogue and one for the sales history, sharing one drag flag.
 */
module Upload {
  import opened Wrappers
  import opened Text
  import opened BrowserFile

  /** The two zones: `"products" | "sales"`. */
  datatype Slot = Products | Sales {
    function Other(): Slot {
      if this == Products then Sales else Products
    }
  }

  /** The `files` state: at most one file per zone. */
  datatype UploadedFiles = UploadedFiles(products: Option<FileInfo>, sales: Option<FileInfo>) {
    function Get(slot: Slot): Option<FileInfo> {
      if slot == Products then products else sales
    }

    /** `{ ...prev, [type]: file }`. */
    function With(slot: Slot, file: FileInfo): (next: UploadedFiles)
      ensures next.Get(slot) == Some(file)
      ensures next.Get(slot.Other()) == Get(slot.Other())
    {
      if slot == Products then this.(products := Some(file)) else this.(sales := Some(file))
    }

    /** Both zones hold a file. */
    predicate Complete() {
      products.Some? && sales.Some?
    }
  }

  const NoFiles := UploadedFiles(None, None)

  /** The page only takes files whose name ends in `.csv`, letter case included. */
  predicate IsCsvName(name: string) {
    EndsWith(name, ".csv")
  }

  /** `droppedFiles.find(file => file.name.endsWith(".csv"))`. */
  function FirstCsv(files: seq<FileInfo>): (found: Option<FileInfo>)
    ensures found.None? <==> forall i :: 0 <= i < |files| ==> !IsCsvName(files[i].name)
    ensures found.Some? ==> exists i :: 0 <= i < |files| && files[i] == found.value
                                        && IsCsvName(files[i].name)
                                        && forall j :: 0 <= j < i ==> !IsCsvName(files[j].name)
  {
    if |files| == 0 then None
    else if IsCsvName(files[0].name) then Some(files[0])
    else
      var rest := FirstCsv(files[1..]);
      assert forall i :: 1 <= i < |files| ==> files[i] == files[1..][i - 1];
      if rest.Some? then
        var k :| 0 <= k < |files[1..]| && files[1..][k] == rest.value
                 && IsCsvName(files[1..][k].name)
                 && forall j :: 0 <= j < k ==> !IsCsvName(files[1..][j].name);
        assert files[k + 1] == rest.value;
        rest
      else
        rest
  }

  /** Filling both zones, in either order, completes the page. */
  lemma FillingBothZonesCompletes(files: UploadedFiles, slot: Slot, first: FileInfo, second: FileInfo)
    ensures files.With(slot, first).With(slot.Other(), second).Complete()
  {
  }

  /** Filling one zone never completes a page whose other zone is empty. */
  lemma OneZoneIsNotEnough(files: UploadedFiles, slot: Slot, file: FileInfo)
    requires files.Get(slot.Other()).None?
    ensures !files.With(slot, file).Complete()
  {
  }

  class UploadPage {
    var isDragging: bool
    var files: UploadedFiles

    constructor ()
      ensures !isDragging && files == NoFiles
    {
      isDragging := false;
      files := NoFiles;
    }

    /** `handleDragOver`: either zone lights up both. */
    method DragOver()
      modifies this`isDragging
      ensures isDragging
    {
      isDragging := true;
    }

    /** `handleDragLeave`. */
    method DragLeave()
      modifies this`isDragging
      ensures !isDragging
    {
      isDragging := false;
    }

    /**
     * `handleDrop`: the drag ends, and the first `.csv` file among those
     * dropped, if there is one, goes into the zone it was dropped on.
     */
    method Drop(dropped: seq<FileInfo>, slot: Slot) returns (accepted: bool)
      modifies this
      ensures !isDragging
      ensures accepted <==> exists i :: 0 <= i < |dropped| && IsCsvName(dropped[i].name)
      ensures accepted ==> files == old(files).With(slot, FirstCsv(dropped).value)
      ensures !accepted ==> files == old(files)
      ensures files.Get(slot.Other()) == old(files).Get(slot.Other())
    {
      isDragging := false;
      var csvFile := FirstCsv(dropped);
      if csvFile.Some? {
        files := files.With(slot, csvFile.value);
        accepted := true;
      } else {
        accepted := false;
      }
    }

    /**
     * `handleFileInput`: only the first chosen file is looked at, and it is
     * kept when its name ends in `.csv`.
     */
    method FileInput(selected: seq<FileInfo>, slot: Slot) returns (accepted: bool)
      modifies this`files
      ensures accepted <==> |selected| > 0 && IsCsvName(selected[0].name)
      ensures accepted ==> files == old(files).With(slot, selected[0])
      ensures !accepted ==> files == old(files)
      ensures files.Get(slot.Other()) == old(files).Get(slot.Other())
    {
      if |selected| > 0 && IsCsvName(selected[0].name) {
        files := files.With(slot, selected[0]);
        accepted := true;
      } else {
        accepted := false;
      }
    }

    /** The "process" button is disabled while a zone is empty. */
    predicate ProcessDisabled()
      reads this
    {
      files.products.None? || files.sales.None?
    }

    /**
     * `handleProcessData`: goes on to the simulator only when both zones hold
     * a file; the page's state is not touched.
     */
    method ProcessData() returns (proceed: bool)
      ensures proceed <==> files.products.Some? && files.sales.Some?
      ensures proceed <==> !ProcessDisabled()
    {
      proceed := files.products.Some? && files.sales.Some?;
    }
  }
}
