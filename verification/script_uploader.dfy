/**
 * The script upload box (src/components/scripts/ScriptUploader.tsx): which
 * files it accepts, the drag highlight, and the processing flag around adding
 * the script to the store. Toasts and the delayed navigation are recorded as
 * effects.
 */
module ScriptUploader {
  import opened Prelude
  import opened ScriptTypes
  import opened ScriptsContext

  /** What the component reads of a File: its name and its MIME type. */
  datatype FileInfo = FileInfo(name: string, mimeType: string)

  const ValidTypes: seq<string> := ["application/pdf", "text/plain", ".fountain"]

  /**
   * `validTypes.some(type => file.type.includes(type) || name.endsWith('.fountain')
   * || name.endsWith('.txt'))` over the given list of types.
   */
  function SomeValid(types: seq<string>, f: FileInfo): bool
    decreases |types|
  {
    types != [] &&
      (Contains(f.mimeType, types[0]) || EndsWith(f.name, ".fountain") || EndsWith(f.name, ".txt") ||
       SomeValid(types[1..], f))
  }

  /** handleFile's test: a valid type, or a name ending in ".pdf". */
  predicate IsAccepted(f: FileInfo) {
    SomeValid(ValidTypes, f) || EndsWith(f.name, ".pdf")
  }

  /**
   * A file is accepted exactly when its MIME type mentions one of the three
   * types or its name ends in one of the three extensions; the extension test
   * is case-sensitive.
   */
  lemma AcceptedMeans(f: FileInfo)
    ensures IsAccepted(f) <==>
      Contains(f.mimeType, "application/pdf") || Contains(f.mimeType, "text/plain") ||
      Contains(f.mimeType, ".fountain") ||
      EndsWith(f.name, ".fountain") || EndsWith(f.name, ".txt") || EndsWith(f.name, ".pdf")
  {
    assert ValidTypes[1..] == ["text/plain", ".fountain"];
    assert ValidTypes[1..][1..] == [".fountain"];
    assert ValidTypes[1..][1..][1..] == [];
  }

  /** Nothing contains a non-empty text when it is itself empty. */
  lemma EmptyContainsNothing(p: string)
    requires p != []
    ensures !Contains("", p)
  {
  }

  /** An upper-case ".PDF" with no MIME type is turned away. */
  lemma UpperCaseExtensionRejected()
    ensures !IsAccepted(FileInfo("SCENE.PDF", ""))
  {
    var f := FileInfo("SCENE.PDF", "");
    AcceptedMeans(f);
    EmptyContainsNothing("application/pdf");
    EmptyContainsNothing("text/plain");
    EmptyContainsNothing(".fountain");
    assert f.name[|f.name| - 4..] == ".PDF";
    assert f.name[|f.name| - 4..][1] != ".pdf"[1];
    assert f.name[|f.name| - 9..][0] != ".fountain"[0];
  }

  /** A plain-text file is accepted by its name alone, whatever its MIME type. */
  lemma TxtNameAccepted(stem: string, mimeType: string)
    ensures IsAccepted(FileInfo(stem + ".txt", mimeType))
  {
    var name := stem + ".txt";
    assert name[|name| - 4..] == ".txt";
    AcceptedMeans(FileInfo(name, mimeType));
  }

  /** What the component asks of its surroundings, in order. */
  datatype Effect =
    | InvalidTypeToast
    | SuccessToast(fileName: string, characterCount: nat)
    | FailureToast
    | NavigateLater(path: string)   // navigate after the 500 ms timer

  /** The isDragging, file and isProcessing cells. */
  class Uploader {
    var isDragging: bool
    var file: Option<FileInfo>
    var isProcessing: bool
    var effects: seq<Effect>

    constructor ()
      ensures !isDragging && file == None && !isProcessing && effects == []
    {
      isDragging, file, isProcessing, effects := false, None, false, [];
    }

    method DragOver()
      modifies this`isDragging
      ensures isDragging
    {
      isDragging := true;
    }

    method DragLeave()
      modifies this`isDragging
      ensures !isDragging
    {
      isDragging := false;
    }

    /**
     * handleFile: a rejected file only raises a toast; an accepted one is
     * recorded and processing starts.
     */
    method HandleFile(f: FileInfo)
      modifies this`file, this`isProcessing, this`effects
      ensures !IsAccepted(f) ==>
        file == old(file) && isProcessing == old(isProcessing) && effects == old(effects) + [InvalidTypeToast]
      ensures IsAccepted(f) ==> file == Some(f) && isProcessing && effects == old(effects)
    {
      if !IsAccepted(f) {
        effects := effects + [InvalidTypeToast];
        return;
      }
      file := Some(f);
      isProcessing := true;
    }

    /** handleDrop: the highlight goes off; the first dropped file, if any, is handled. */
    method Drop(dropped: Option<FileInfo>)
      modifies this
      ensures !isDragging
      ensures dropped.None? ==> file == old(file) && isProcessing == old(isProcessing) && effects == old(effects)
      ensures dropped.Some? && !IsAccepted(dropped.value) ==>
        file == old(file) && isProcessing == old(isProcessing) && effects == old(effects) + [InvalidTypeToast]
      ensures dropped.Some? && IsAccepted(dropped.value) ==>
        file == dropped && isProcessing && effects == old(effects)
    {
      isDragging := false;
      if dropped.Some? {
        HandleFile(dropped.value);
      }
    }

    /** handleFileInput: the first chosen file, if any, is handled; the highlight is untouched. */
    method FileInput(chosen: Option<FileInfo>)
      modifies this`file, this`isProcessing, this`effects
      ensures chosen.None? ==> file == old(file) && isProcessing == old(isProcessing) && effects == old(effects)
      ensures chosen.Some? && !IsAccepted(chosen.value) ==>
        file == old(file) && isProcessing == old(isProcessing) && effects == old(effects) + [InvalidTypeToast]
      ensures chosen.Some? && IsAccepted(chosen.value) ==>
        file == chosen && isProcessing && effects == old(effects)
    {
      if chosen.Some? {
        HandleFile(chosen.value);
      }
    }

    /** The "Upload Another" button. */
    method ClearFile()
      modifies this`file
      ensures file == None
    {
      file := None;
    }

    /**
     * processFile after addScript resolved: the script is added to the store,
     * a toast reports its characters, navigation to its assignment page is
     * scheduled, and processing ends.
     */
    method ProcessSucceeded(store: ScriptStore, f: FileInfo, text: string, matches: seq<RawMatch>, now: nat)
      returns (script: Script)
      modifies this`isProcessing, this`effects, store
      ensures !isProcessing
      ensures store.scripts == [script] + old(store.scripts)
      ensures script.title == StripScriptExtension(f.name) && script.lines == ParsedLines(matches)
      ensures script.characters == CharactersFor(script.lines)
      ensures effects == old(effects) +
        [SuccessToast(f.name, |script.characters|), NavigateLater("/scripts/script-" + NatToString(now) + "/assign")]
    {
      script := store.AddScript(f.name, text, matches, now);
      assert "/scripts/" + script.id == "/scripts/script-" + NatToString(now);
      effects := effects + [SuccessToast(f.name, |script.characters|), NavigateLater("/scripts/" + script.id + "/assign")];
      isProcessing := false;
    }

    /** processFile after addScript failed: a failure toast, and processing ends. */
    method ProcessFailed()
      modifies this`isProcessing, this`effects
      ensures !isProcessing && effects == old(effects) + [FailureToast]
    {
      effects := effects + [FailureToast];
      isProcessing := false;
    }
  }

  /** Dragging a rejected file over the box and dropping it leaves no file and nothing processing. */
  method DropRejectedFile()
  {
    var uploader := new Uploader();
    uploader.DragOver();
    UpperCaseExtensionRejected();
    uploader.Drop(Some(FileInfo("SCENE.PDF", "")));
    assert !uploader.isDragging && uploader.file == None && !uploader.isProcessing;
    assert uploader.effects == [InvalidTypeToast];
  }
}
