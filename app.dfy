/**
 * The event handlers of the `App` component (src/App.jsx) that guard and build store
 * writes: selecting a center, creating a center, the completeness gate and save of an
 * analysed receipt, and the Excel export. Component state is a class whose fields the
 * handlers update; the hosted store is seen only through the replies it gives (method
 * parameters) and a log of the inserts it accepted.
 */
module App {
  import opened Wrappers
  import opened JsText
  import opened Json
  import opened Analysis

  /** What a store call or the inference call answers: data, or an error carrying its message. */
  datatype Reply<T> = Ok(value: T) | Fail(message: string)

  /** A row of `centri_spesa`. */
  datatype Center = Center(id: string, nome: string)

  /** A row of `spese` as the store returns it. */
  datatype Expense = Expense(
    id: string,
    centerId: string,
    tipoSpesa: string,
    importo: real,
    descrizione: string,
    azienda: string,
    dataSpesa: Option<string>,
    image: Option<string>)

  /** The object `saveExpense` inserts; `dataSpesa` is None when the key is left out. */
  datatype ExpensePayload = ExpensePayload(
    centerId: string,
    tipoSpesa: JsonValue,
    importo: real,
    descrizione: JsonValue,
    azienda: JsonValue,
    dataSpesa: Option<JsonValue>,
    image: string)

  /** An insert the store accepted. */
  datatype StoreWrite = InsertCenter(nome: string) | InsertExpense(payload: ExpensePayload)

  /** One spreadsheet row; `date` None is shown as "-". */
  datatype ExportRow = ExportRow(date: Option<string>, azienda: string, tipoSpesa: string, importo: real, descrizione: string)

  datatype Workbook = Workbook(fileName: string, sheetName: string, rows: seq<ExportRow>)

  /** Every field of the component state the handlers touch, plus the store's write log. */
  datatype AppView = AppView(
    centers: seq<Center>,
    selectedCenter: string,
    expenses: seq<Expense>,
    error: string,
    newCenterName: string,
    showNewCenterForm: bool,
    editingExpense: Option<Expense>,
    writes: seq<StoreWrite>)

  const LoadCentersError: string := "Errore nel caricamento dei centri di spesa."
  const LoadExpensesError: string := "Errore nel caricamento delle spese: "
  const MissingNameError: string := "Inserisci un nome per il centro di spesa."
  const CreateCenterError: string := "Errore nella creazione del centro di spesa: "
  const AnalyzeError: string := "Errore nell'analisi dell'immagine: "
  const IncompleteMessage: string := "Dati incompleti o non validi"
  const NoCenterError: string := "Seleziona un centro di spesa prima di salvare."
  const SaveError: string := "Errore nel salvataggio della spesa: "
  const NothingToExportError: string := "Nessuna spesa da esportare."

  /** The state after `fetchCenters` receives `reply`. */
  function WithCenters(v: AppView, reply: Reply<seq<Center>>): AppView {
    match reply
    case Ok(data) => v.(centers := data)
    case Fail(_) => v.(error := LoadCentersError)
  }

  /** The state after `fetchExpenses` receives `reply`. */
  function WithExpenses(v: AppView, reply: Reply<seq<Expense>>): AppView {
    match reply
    case Ok(data) => v.(expenses := data)
    case Fail(m) => v.(error := LoadExpensesError + m)
  }

  /** The object `saveExpense` sends for an analysed receipt. */
  function Payload(centerId: string, rec: Analysis, image: string): ExpensePayload {
    ExpensePayload(centerId, rec.tipoSpesa, rec.importo, rec.descrizione, rec.azienda,
                   if Truthy(rec.dataSpesa) then Some(rec.dataSpesa) else None, image)
  }

  /** The state after `saveExpense` with the store's answers to the insert and to the refresh. */
  function AfterSave(v: AppView, rec: Analysis, image: string, inserted: Reply<()>, refreshed: Reply<seq<Expense>>): AppView {
    if v.selectedCenter == "" then v.(error := NoCenterError)
    else match inserted
      case Fail(m) => v.(error := SaveError + m)
      case Ok(_) =>
        WithExpenses(v.(writes := v.writes + [InsertExpense(Payload(v.selectedCenter, rec, image))]), refreshed)
  }

  /**
   * The state after `handleCreateCenter`: a name that trims to nothing sets the error and
   * nothing else; a refused insert sets the error; an accepted one logs the trimmed name,
   * resets the form, reloads the centers and selects and loads the first returned row.
   */
  function AfterCreate(v: AppView, created: Reply<seq<Center>>, reloaded: Reply<seq<Center>>, fetched: Reply<seq<Expense>>): AppView {
    var name := Trim(v.newCenterName);
    if name == "" then v.(error := MissingNameError)
    else match created
      case Fail(m) => v.(error := CreateCenterError + m)
      case Ok(data) =>
        var w := WithCenters(v.(writes := v.writes + [InsertCenter(name)], newCenterName := "", showNewCenterForm := false), reloaded);
        if data == [] then w else WithExpenses(w.(selectedCenter := data[0].id), fetched)
  }

  /**
   * Creating a center writes at most one row, and only a name that is not blank:
   * the inserted name is the typed one without its surrounding whitespace.
   */
  lemma CreateWritesTrimmedName(v: AppView, created: Reply<seq<Center>>, reloaded: Reply<seq<Center>>, fetched: Reply<seq<Expense>>)
    ensures var after := AfterCreate(v, created, reloaded, fetched);
      (AllSpace(v.newCenterName) ==> after == v.(error := MissingNameError)) &&
      (after.writes == v.writes || after.writes == v.writes + [InsertCenter(Trim(v.newCenterName))]) &&
      (after.writes != v.writes <==> !AllSpace(v.newCenterName) && created.Ok?)
  {
    TrimBlankIffAllSpace(v.newCenterName);
    AfterCreateWrites(v, created, reloaded, fetched);
  }

  lemma AfterCreateWrites(v: AppView, created: Reply<seq<Center>>, reloaded: Reply<seq<Center>>, fetched: Reply<seq<Expense>>)
    ensures AfterCreate(v, created, reloaded, fetched).writes ==
      if Trim(v.newCenterName) != "" && created.Ok? then v.writes + [InsertCenter(Trim(v.newCenterName))] else v.writes
  {
    var name := Trim(v.newCenterName);
    if name != "" && created.Ok? {
      var u := v.(writes := v.writes + [InsertCenter(name)], newCenterName := "", showNewCenterForm := false);
      var w := WithCenters(u, reloaded);
      assert w.writes == u.writes;
      if created.value != [] {
        assert WithExpenses(w.(selectedCenter := created.value[0].id), fetched).writes == w.writes;
      }
    }
  }

  /**
   * A payload built from a parsed answer carries `data_spesa` exactly when the answer
   * had a truthy date (and its description could be joined), and then it is that date.
   */
  lemma PayloadDateFromAnswer(rt: JsRuntime, text: string, centerId: string, image: string)
    ensures var p := Payload(centerId, ParseAnalysis(rt, text), image);
      (p.dataSpesa.Some? <==> FieldTruthy(Field(rt, text, "dataSpesa")) && !DescriptionThrows(rt, text)) &&
      (p.dataSpesa.Some? ==> p.dataSpesa == Field(rt, text, "dataSpesa"))
  {
    if !DescriptionThrows(rt, text) {
      TruthyDefaults(rt, text);
    }
  }

  /** `r` is the first center in `centers` whose id is `id`. */
  ghost predicate FirstWithId(centers: seq<Center>, id: string, r: Center) {
    exists k :: 0 <= k < |centers| && centers[k] == r && r.id == id &&
      forall j :: 0 <= j < k ==> centers[j].id != id
  }

  lemma FirstWithIdShift(centers: seq<Center>, id: string, r: Center)
    requires centers != [] && centers[0].id != id
    requires FirstWithId(centers[1..], id, r)
    ensures FirstWithId(centers, id, r)
  {
    var k :| 0 <= k < |centers| - 1 && centers[1..][k] == r && r.id == id &&
      forall j :: 0 <= j < k ==> centers[1..][j].id != id;
    forall j | 0 <= j < k + 1
      ensures centers[j].id != id
    {
      if j > 0 { assert centers[j] == centers[1..][j - 1]; }
    }
  }

  /** `centers.find(c => c.id === id)`: the first center with that id. */
  function FindCenter(centers: seq<Center>, id: string): (r: Option<Center>)
    ensures r.None? <==> forall c :: c in centers ==> c.id != id
    ensures r.Some? ==> FirstWithId(centers, id, r.value)
  {
    if centers == [] then None
    else if centers[0].id == id then Some(centers[0])
    else
      var r := FindCenter(centers[1..], id);
      if r.Some? then FirstWithIdShift(centers, id, r.value); r else r
  }

  /** `find(...)?.nome || 'centro'`: the first matching center's name when that is non-empty. */
  function CenterLabel(centers: seq<Center>, id: string): (name: string)
    ensures name != ""
    ensures (forall c :: c in centers ==> c.id != id) ==> name == "centro"
    ensures name != "centro" ==> exists c :: c in centers && c.id == id && c.nome == name
  {
    assert forall r :: FirstWithId(centers, id, r) ==> r in centers;
    match FindCenter(centers, id)
    case Some(c) => if c.nome != "" then c.nome else "centro"
    case None => "centro"
  }

  function ExportFileName(centers: seq<Center>, id: string): string {
    "spese_" + CenterLabel(centers, id) + ".xlsx"
  }

  lemma FirstWithIdUnique(centers: seq<Center>, id: string, a: Center, b: Center)
    requires FirstWithId(centers, id, a) && FirstWithId(centers, id, b)
    ensures a == b
  {
    var i :| 0 <= i < |centers| && centers[i] == a && a.id == id && forall j :: 0 <= j < i ==> centers[j].id != id;
    var k :| 0 <= k < |centers| && centers[k] == b && b.id == id && forall j :: 0 <= j < k ==> centers[j].id != id;
  }

  /**
   * The export file is named after the first center whose id is the selected one,
   * when that center has a non-empty name; otherwise it is "spese_centro.xlsx".
   */
  lemma ExportNamedAfterFirstCenter(centers: seq<Center>, id: string, c: Center)
    requires FirstWithId(centers, id, c)
    ensures ExportFileName(centers, id) == "spese_" + (if c.nome != "" then c.nome else "centro") + ".xlsx"
  {
    var r := FindCenter(centers, id);
    assert c in centers && c.id == id;
    FirstWithIdUnique(centers, id, r.value, c);
  }

  /** One expense as the export shows it; date and amount formatting are not modelled. */
  function RowOf(e: Expense): ExportRow {
    ExportRow(if e.dataSpesa.Some? && e.dataSpesa.value != "" then e.dataSpesa else None,
              e.azienda, e.tipoSpesa, e.importo, e.descrizione)
  }

  function ExportRows(expenses: seq<Expense>): (rows: seq<ExportRow>)
    ensures |rows| == |expenses|
  {
    seq(|expenses|, i requires 0 <= i < |expenses| => RowOf(expenses[i]))
  }

  class Session {
    var centers: seq<Center>
    var selectedCenter: string
    var expenses: seq<Expense>
    var error: string
    var newCenterName: string
    var showNewCenterForm: bool
    var editingExpense: Option<Expense>
    var writes: seq<StoreWrite>

    function View(): AppView
      reads this
    {
      AppView(centers, selectedCenter, expenses, error, newCenterName, showNewCenterForm, editingExpense, writes)
    }

    /** The initial `useState` values; nothing written yet. */
    constructor ()
      ensures View() == AppView([], "", [], "", "", false, None, [])
    {
      centers, selectedCenter, expenses, error := [], "", [], "";
      newCenterName, showNewCenterForm, editingExpense, writes := "", false, None, [];
    }

    /** `fetchCenters` (src/App.jsx:35-42). */
    method FetchCenters(reply: Reply<seq<Center>>)
      modifies this
      ensures View() == WithCenters(old(View()), reply)
    {
      match reply
      case Ok(data) => centers := data;
      case Fail(_) => error := LoadCentersError;
    }

    /** `fetchExpenses(centerId)` (src/App.jsx:44-57); `reply` is the store's answer for that center. */
    method FetchExpenses(centerId: string, reply: Reply<seq<Expense>>)
      modifies this
      ensures View() == WithExpenses(old(View()), reply)
    {
      match reply
      case Ok(data) => expenses := data;
      case Fail(m) => error := LoadExpensesError + m;
    }

    /**
     * `handleCenterChange`: an empty selection clears the list without asking the store;
     * any other selection loads that center's expenses. Nothing is written, and an
     * expense being edited stays being edited.
     */
    method HandleCenterChange(centerId: string, reply: Reply<seq<Expense>>)
      modifies this
      ensures centerId == "" ==> View() == old(View()).(selectedCenter := "", expenses := [])
      ensures centerId != "" ==> View() == WithExpenses(old(View()).(selectedCenter := centerId), reply)
      ensures writes == old(writes) && editingExpense == old(editingExpense)
    {
      selectedCenter := centerId;
      if centerId != "" {
        FetchExpenses(centerId, reply);
      } else {
        expenses := [];
      }
    }

    /**
     * `handleCreateCenter`: a whitespace-only name is refused before any store call;
     * otherwise the trimmed name is inserted and, on success, the form is reset, the
     * centers are reloaded and the new center (if the store returned it) is selected.
     */
    method HandleCreateCenter(created: Reply<seq<Center>>, reloaded: Reply<seq<Center>>, fetched: Reply<seq<Expense>>)
      modifies this
      ensures View() == AfterCreate(old(View()), created, reloaded, fetched)
    {
      ghost var v0 := View();
      var name := Trim(newCenterName);
      if name == "" {
        assert AfterCreate(v0, created, reloaded, fetched) == v0.(error := MissingNameError);
        error := MissingNameError;
        return;
      }
      match created
      case Fail(m) =>
        assert AfterCreate(v0, created, reloaded, fetched) == v0.(error := CreateCenterError + m);
        error := CreateCenterError + m;
      case Ok(data) =>
        CenterCreated(name, data, reloaded, fetched);
    }

    /** The success branch of `handleCreateCenter`, once the store accepted `name` and answered `data`. */
    method CenterCreated(name: string, data: seq<Center>, reloaded: Reply<seq<Center>>, fetched: Reply<seq<Expense>>)
      modifies this
      ensures var w := WithCenters(old(View()).(writes := old(writes) + [InsertCenter(name)], newCenterName := "", showNewCenterForm := false), reloaded);
        View() == if data == [] then w else WithExpenses(w.(selectedCenter := data[0].id), fetched)
    {
      writes := writes + [InsertCenter(name)];
      newCenterName := "";
      showNewCenterForm := false;
      FetchCenters(reloaded);
      if data != [] {
        selectedCenter := data[0].id;
        FetchExpenses(data[0].id, fetched);
      }
    }

    /**
     * `saveExpense`: without a selected center nothing is sent; otherwise the payload
     * carries the selected center and `data_spesa` only for a truthy date.
     */
    method SaveExpense(rec: Analysis, image: string, inserted: Reply<()>, refreshed: Reply<seq<Expense>>)
      modifies this
      ensures View() == AfterSave(old(View()), rec, image, inserted, refreshed)
      ensures old(selectedCenter) == "" ==> writes == old(writes) && error == NoCenterError
      ensures writes != old(writes) ==>
        old(selectedCenter) != "" && inserted.Ok? &&
        |writes| == |old(writes)| + 1 && writes[..|old(writes)|] == old(writes) &&
        writes[|old(writes)|].InsertExpense? &&
        var p := writes[|old(writes)|].payload;
        p.centerId == old(selectedCenter) && p.image == image &&
        p.tipoSpesa == rec.tipoSpesa && p.importo == rec.importo &&
        p.descrizione == rec.descrizione && p.azienda == rec.azienda &&
        (p.dataSpesa.Some? <==> Truthy(rec.dataSpesa)) &&
        (p.dataSpesa.Some? ==> p.dataSpesa.value == rec.dataSpesa)
    {
      if selectedCenter == "" {
        error := NoCenterError;
        return;
      }
      var payload := Payload(selectedCenter, rec, image);
      match inserted
      case Fail(m) =>
        error := SaveError + m;
      case Ok(_) =>
        writes := writes + [InsertExpense(payload)];
        FetchExpenses(selectedCenter, refreshed);
    }

    /**
     * `analyzeImage` after the inference call: the raw answer is parsed, and a record
     * with a falsy `tipoSpesa`, `importo` or `azienda` is refused before `saveExpense`.
     */
    method AnalyzeImage(rt: JsRuntime, inference: Reply<string>, image: string, inserted: Reply<()>, refreshed: Reply<seq<Expense>>)
      modifies this
      ensures inference.Fail? ==> View() == old(View()).(error := AnalyzeError + inference.message)
      ensures inference.Ok? && !IsComplete(ParseAnalysis(rt, inference.value)) ==>
        View() == old(View()).(error := AnalyzeError + IncompleteMessage)
      ensures inference.Ok? && IsComplete(ParseAnalysis(rt, inference.value)) ==>
        View() == AfterSave(old(View()).(error := ""), ParseAnalysis(rt, inference.value), image, inserted, refreshed)
      ensures writes != old(writes) ==>
        inference.Ok? && IsComplete(ParseAnalysis(rt, inference.value)) && old(selectedCenter) != "" &&
        writes == old(writes) + [InsertExpense(Payload(old(selectedCenter), ParseAnalysis(rt, inference.value), image))]
      ensures inference.Ok? && (Decoded(rt, inference.value) == None || Decoded(rt, inference.value) == Some(JNull) ||
                                DescriptionThrows(rt, inference.value)) ==>
        writes == old(writes)
    {
      error := "";
      match inference
      case Fail(m) =>
        error := AnalyzeError + m;
      case Ok(text) =>
        var rec := ParseAnalysis(rt, text);
        ParseErrorIncomplete();
        if !IsComplete(rec) {
          error := AnalyzeError + IncompleteMessage;
        } else {
          SaveExpense(rec, image, inserted, refreshed);
        }
    }

    /**
     * `exportToExcel`: an empty list is refused with a message and no file; otherwise one
     * row per expense, in order, in a sheet "Spese" of a file named after the center.
     */
    method ExportToExcel() returns (file: Option<Workbook>)
      modifies this
      ensures old(expenses) == [] ==> file == None && View() == old(View()).(error := NothingToExportError)
      ensures old(expenses) != [] ==>
        View() == old(View()) &&
        file == Some(Workbook(ExportFileName(centers, selectedCenter), "Spese", ExportRows(expenses)))
    {
      if expenses == [] {
        error := NothingToExportError;
        return None;
      }
      file := Some(Workbook(ExportFileName(centers, selectedCenter), "Spese", ExportRows(expenses)));
    }
  }
}
