/**
 Shipment documents: immutable versions, role-gated approval, and the checklist that guards stage
 transitions. Rows are never deleted, so a row's id is its position in its table.
 */
module Documents {
  import opened Results

  datatype DocStatus = PendingReview | DocApproved | Rejected | RevisionRequested
  datatype ItemStatus = Required | Uploaded | Approved | Missing
  datatype Action = Upload | Approve | Reject | RequestRevision | View

  datatype Document = Document(shipment: nat, docType: string, version: nat, status: DocStatus)
  datatype Version = Version(doc: nat, number: nat, file: string)
  datatype Item = Item(shipment: nat, docType: string, mandatory: bool, status: ItemStatus, doc: Option<nat>)

  /** An access-log row; `roles` remembers what the actor held at that moment. */
  datatype LogEntry = LogEntry(doc: nat, actor: nat, action: Action, roles: set<string>)

  datatype Rule = Rule(docType: string, mandatory: bool)

  datatype State = State(docs: seq<Document>, versions: seq<Version>, items: seq<Item>, log: seq<LogEntry>)

  const EMPTY := State([], [], [], [])

  /** Roles that may approve a document type; a type without a gate is open to all. */
  const GATES: map<string, set<string>> := map[
    "DGR_DECLARATION" := {"COMPLIANCE", "COMPLIANCE_OFFICER", "SUPER_ADMIN"},
    "DGR_EMERGENCY_RESPONSE" := {"COMPLIANCE", "COMPLIANCE_OFFICER", "SUPER_ADMIN"},
    "COMMERCIAL_INVOICE" := {"CUSTOMS", "FINANCE", "FINANCE_CONTROLLER", "OPERATIONS", "SUPER_ADMIN"},
    "US_ISF_10_2" := {"CUSTOMS", "OPERATIONS", "SUPER_ADMIN"},
    "SABER_SASO_CERTIFICATE" := {"CUSTOMS", "COMPLIANCE", "SUPER_ADMIN"},
    "PHYTOSANITARY_CERT" := {"CUSTOMS", "COMPLIANCE", "SUPER_ADMIN"},
    "BILL_OF_LADING" := {"OPERATIONS", "PRICING", "SUPER_ADMIN"},
    "AIR_WAYBILL" := {"OPERATIONS", "PRICING", "SUPER_ADMIN"}
  ]

  predicate MayApprove(docType: string, roles: set<string>) {
    docType !in GATES || roles * GATES[docType] != {} || "SUPER_ADMIN" in roles
  }

  type Key = (nat, string)

  function DocKey(doc: Document): Key { (doc.shipment, doc.docType) }
  function ItemKey(item: Item): Key { (item.shipment, item.docType) }

  /** The row with this key. */
  function Find<T>(rows: seq<T>, keyOf: T -> Key, key: Key): (r: Option<nat>)
    ensures r.Some? ==> r.value < |rows| && keyOf(rows[r.value]) == key
    ensures r.None? ==> forall i :: 0 <= i < |rows| ==> keyOf(rows[i]) != key
  {
    if rows == [] then None else
    var n := |rows| - 1;
    if keyOf(rows[n]) == key then Some(n) else Find(rows[..n], keyOf, key)
  }

  /** The document of this type on this shipment. */
  function FindDoc(docs: seq<Document>, shipment: nat, docType: string): (r: Option<nat>)
    ensures r.Some? ==> r.value < |docs| && docs[r.value].shipment == shipment && docs[r.value].docType == docType
    ensures r.None? ==> forall i :: 0 <= i < |docs| ==> !(docs[i].shipment == shipment && docs[i].docType == docType)
  {
    var r := Find(docs, DocKey, (shipment, docType));
    assert r.None? ==> forall i :: 0 <= i < |docs| ==> DocKey(docs[i]) != (shipment, docType);
    r
  }

  function FindItem(items: seq<Item>, shipment: nat, docType: string): (r: Option<nat>)
    ensures r.Some? ==> r.value < |items| && items[r.value].shipment == shipment && items[r.value].docType == docType
    ensures r.None? ==> forall i :: 0 <= i < |items| ==> !(items[i].shipment == shipment && items[i].docType == docType)
  {
    var r := Find(items, ItemKey, (shipment, docType));
    assert r.None? ==> forall i :: 0 <= i < |items| ==> ItemKey(items[i]) != (shipment, docType);
    r
  }

  /** The checklist item of a document's type, if any, with a new status and link. */
  function MarkItem(items: seq<Item>, shipment: nat, docType: string, status: ItemStatus, link: Option<nat>): (after: seq<Item>)
    ensures |after| == |items|
  {
    match FindItem(items, shipment, docType)
    case None => items
    case Some(i) => items[i := items[i].(status := status, doc := if link.Some? then link else items[i].doc)]
  }

  datatype Op =
    | DoUpload(shipment: nat, docType: string, actor: nat, file: string)
    | DoApprove(doc: nat, actor: nat, roles: set<string>)
    | DoReject(doc: nat, actor: nat)
    | DoRequestRevision(doc: nat, actor: nat)
    | DoView(doc: nat, actor: nat)
    | DoGenerateChecklist(shipment: nat, rules: seq<Rule>)

  function UploadTo(st: State, shipment: nat, docType: string, actor: nat, file: string): State {
    var found := FindDoc(st.docs, shipment, docType);
    var id := if found.Some? then found.value else |st.docs|;
    var number := if found.Some? then st.docs[id].version + 1 else 1;
    var doc := Document(shipment, docType, number, PendingReview);
    State(if found.Some? then st.docs[id := doc] else st.docs + [doc],
          st.versions + [Version(id, number, file)],
          MarkItem(st.items, shipment, docType, Uploaded, Some(id)),
          st.log + [LogEntry(id, actor, Upload, {})])
  }

  /** Approve, reject, request a revision or view: a status change and a log row. */
  function ActOn(st: State, id: nat, entry: LogEntry): State
    requires id < |st.docs|
  {
    var doc := st.docs[id];
    match entry.action
    case Approve =>
      st.(docs := st.docs[id := doc.(status := DocApproved)],
          items := MarkItem(st.items, doc.shipment, doc.docType, Approved, None), log := st.log + [entry])
    case Reject =>
      st.(docs := st.docs[id := doc.(status := Rejected)],
          items := MarkItem(st.items, doc.shipment, doc.docType, Missing, None), log := st.log + [entry])
    case RequestRevision => st.(docs := st.docs[id := doc.(status := RevisionRequested)], log := st.log + [entry])
    case _ => st.(log := st.log + [entry])
  }

  /** New items for the rules whose type the checklist does not have yet. */
  function AddItems(items: seq<Item>, shipment: nat, rules: seq<Rule>): seq<Item> {
    if rules == [] then items else
    var before, rule := AddItems(items, shipment, rules[..|rules| - 1]), rules[|rules| - 1];
    if FindItem(before, shipment, rule.docType).Some? then before
    else before + [Item(shipment, rule.docType, rule.mandatory, Required, None)]
  }

  function Step(st: State, op: Op): Outcome<State> {
    match op
    case DoUpload(shipment, docType, actor, file) => Done(UploadTo(st, shipment, docType, actor, file))
    case DoGenerateChecklist(shipment, rules) => Done(st.(items := AddItems(st.items, shipment, rules)))
    case DoApprove(doc, actor, roles) =>
      if doc >= |st.docs| then Refused("Document not found")
      else if !MayApprove(st.docs[doc].docType, roles) then Refused("Role gate")
      else Done(ActOn(st, doc, LogEntry(doc, actor, Approve, roles)))
    case DoReject(doc, actor) =>
      if doc >= |st.docs| then Refused("Document not found") else Done(ActOn(st, doc, LogEntry(doc, actor, Reject, {})))
    case DoRequestRevision(doc, actor) =>
      if doc >= |st.docs| then Refused("Document not found") else Done(ActOn(st, doc, LogEntry(doc, actor, RequestRevision, {})))
    case DoView(doc, actor) =>
      if doc >= |st.docs| then Refused("Document not found") else Done(ActOn(st, doc, LogEntry(doc, actor, View, {})))
  }

  function Run(ops: seq<Op>): State {
    if ops == [] then EMPTY else
    var before := Run(ops[..|ops| - 1]);
    match Step(before, ops[|ops| - 1])
    case Done(after) => after
    case Refused(_) => before
  }

  predicate Outstanding(item: Item, shipment: nat) {
    item.shipment == shipment && item.mandatory && (item.status.Required? || item.doc.None?)
  }

  predicate Unapproved(item: Item, shipment: nat) {
    item.shipment == shipment && item.mandatory && !item.status.Required? && item.doc.Some? && !item.status.Approved?
  }

  /** The items of the checklist that hold a transition back. */
  function Blocking(items: seq<Item>, shipment: nat, holds: (Item, nat) -> bool): seq<Item> {
    if items == [] then [] else
    var last := items[|items| - 1];
    Blocking(items[..|items| - 1], shipment, holds) + if holds(last, shipment) then [last] else []
  }

  lemma {:induction false} BlockingMembers(items: seq<Item>, shipment: nat, holds: (Item, nat) -> bool)
    ensures forall x :: x in Blocking(items, shipment, holds) <==> x in items && holds(x, shipment)
  {
    if items != [] {
      var n := |items| - 1;
      BlockingMembers(items[..n], shipment, holds);
      assert items == items[..n] + [items[n]];
    }
  }

  lemma {:induction false} NothingBlocks(items: seq<Item>, shipment: nat)
    ensures Blocking(items, shipment, Outstanding) == [] && Blocking(items, shipment, Unapproved) == [] <==>
            forall i :: 0 <= i < |items| && items[i].shipment == shipment && items[i].mandatory ==>
              items[i].doc.Some? && items[i].status.Approved?
  {
    if items != [] {
      var n := |items| - 1;
      NothingBlocks(items[..n], shipment);
      assert forall i :: 0 <= i < n ==> items[..n][i] == items[i];
    }
  }

  // ---------------------------------------------------------------- the service object

  class DocumentService {
    var docs: seq<Document>
    var versions: seq<Version>
    var items: seq<Item>
    var log: seq<LogEntry>

    function St(): State
      reads this
    {
      State(docs, versions, items, log)
    }

    constructor ()
      ensures St() == EMPTY
    {
      docs, versions, items, log := [], [], [], [];
    }

    method UploadDocument(shipment: nat, docType: string, actor: nat, file: string) returns (id: nat, number: nat)
      modifies this
      ensures St() == UploadTo(old(St()), shipment, docType, actor, file)
      ensures id < |docs| && docs[id].version == number
    {
      var existing := FindDoc(docs, shipment, docType);
      if existing.Some? {
        id := existing.value;
        number := docs[id].version + 1;
        docs := docs[id := docs[id].(version := number, status := PendingReview)];
      } else {
        id, number := |docs|, 1;
        docs := docs + [Document(shipment, docType, 1, PendingReview)];
      }
      versions := versions + [Version(id, number, file)];
      var item := FindItem(items, shipment, docType);
      if item.Some? {
        items := items[item.value := items[item.value].(status := Uploaded, doc := Some(id))];
      }
      log := log + [LogEntry(id, actor, Upload, {})];
    }

    method ApproveDocument(doc: nat, actor: nat, roles: set<string>) returns (r: Outcome<()>)
      modifies this
      ensures r.Done? <==> Step(old(St()), DoApprove(doc, actor, roles)).Done?
      ensures St() == if r.Done? then Step(old(St()), DoApprove(doc, actor, roles)).value else old(St())
    {
      if doc >= |docs| {
        return Refused("Document not found");
      }
      var docType := docs[doc].docType;
      if docType in GATES && roles * GATES[docType] == {} && "SUPER_ADMIN" !in roles {
        return Refused("Role gate");
      }
      docs := docs[doc := docs[doc].(status := DocApproved)];
      var item := FindItem(items, docs[doc].shipment, docType);
      if item.Some? {
        items := items[item.value := items[item.value].(status := Approved)];
      }
      log := log + [LogEntry(doc, actor, Approve, roles)];
      r := Done(());
    }

    method RejectDocument(doc: nat, actor: nat) returns (r: Outcome<()>)
      modifies this
      ensures r.Done? <==> Step(old(St()), DoReject(doc, actor)).Done?
      ensures St() == if r.Done? then Step(old(St()), DoReject(doc, actor)).value else old(St())
    {
      if doc >= |docs| {
        return Refused("Document not found");
      }
      docs := docs[doc := docs[doc].(status := Rejected)];
      var item := FindItem(items, docs[doc].shipment, docs[doc].docType);
      if item.Some? {
        items := items[item.value := items[item.value].(status := Missing)];
      }
      log := log + [LogEntry(doc, actor, Reject, {})];
      r := Done(());
    }

    method RequestDocumentRevision(doc: nat, actor: nat) returns (r: Outcome<()>)
      modifies this
      ensures r.Done? <==> Step(old(St()), DoRequestRevision(doc, actor)).Done?
      ensures St() == if r.Done? then Step(old(St()), DoRequestRevision(doc, actor)).value else old(St())
    {
      if doc >= |docs| {
        return Refused("Document not found");
      }
      docs := docs[doc := docs[doc].(status := RevisionRequested)];
      log := log + [LogEntry(doc, actor, RequestRevision, {})];
      r := Done(());
    }

    method GenerateChecklist(shipment: nat, rules: seq<Rule>)
      modifies this
      ensures Step(old(St()), DoGenerateChecklist(shipment, rules)) == Done(St())
    {
      ghost var before := items;
      for n := 0 to |rules|
        invariant docs == old(docs) && versions == old(versions) && log == old(log)
        invariant items == AddItems(before, shipment, rules[..n])
      {
        assert rules[..n + 1][..n] == rules[..n];
        if FindItem(items, shipment, rules[n].docType).None? {
          items := items + [Item(shipment, rules[n].docType, rules[n].mandatory, Required, None)];
        }
      }
      assert rules[..|rules|] == rules;
    }

    method ValidateTransition(shipment: nat) returns (canProceed: bool, missing: seq<Item>, unapproved: seq<Item>)
      ensures missing == Blocking(items, shipment, Outstanding)
      ensures unapproved == Blocking(items, shipment, Unapproved)
      ensures forall x :: x in missing <==>
                x in items && x.shipment == shipment && x.mandatory && (x.status == Required || x.doc == None)
      ensures forall x :: x in unapproved <==>
                x in items && x.shipment == shipment && x.mandatory && x.status != Required && x.doc.Some? && x.status != Approved
      ensures canProceed <==> forall i :: 0 <= i < |items| && items[i].shipment == shipment && items[i].mandatory ==>
                                items[i].doc.Some? && items[i].status.Approved?
    {
      missing, unapproved := [], [];
      for n := 0 to |items|
        invariant missing == Blocking(items[..n], shipment, Outstanding)
        invariant unapproved == Blocking(items[..n], shipment, Unapproved)
      {
        assert items[..n + 1][..n] == items[..n];
        var item := items[n];
        if item.shipment == shipment && item.mandatory {
          if item.status.Required? || item.doc.None? {
            missing := missing + [item];
          } else if !item.status.Approved? {
            unapproved := unapproved + [item];
          }
        }
      }
      assert items[..|items|] == items;
      NothingBlocks(items, shipment);
      BlockingMembers(items, shipment, Outstanding);
      BlockingMembers(items, shipment, Unapproved);
      canProceed := |missing| == 0 && |unapproved| == 0;
    }
  }

  // ---------------------------------------------------------------- what every run keeps

  /** The last upload, approval or rejection logged for a document. */
  function LastDecision(log: seq<LogEntry>, doc: nat): Option<LogEntry> {
    if log == [] then None else
    var last := log[|log| - 1];
    if last.doc == doc && (last.action.Upload? || last.action.Approve? || last.action.Reject?) then Some(last)
    else LastDecision(log[..|log| - 1], doc)
  }

  /** The last row logged for a document other than a mere view. */
  function LastChange(log: seq<LogEntry>, doc: nat): Option<LogEntry> {
    if log == [] then None else
    var last := log[|log| - 1];
    if last.doc == doc && !last.action.View? then Some(last) else LastChange(log[..|log| - 1], doc)
  }

  function Rows(versions: seq<Version>, doc: nat): seq<Version> {
    if versions == [] then [] else
    var last := versions[|versions| - 1];
    Rows(versions[..|versions| - 1], doc) + if last.doc == doc then [last] else []
  }

  ghost predicate UniqueDocs(docs: seq<Document>) {
    forall i, j :: 0 <= i < j < |docs| ==> docs[i].shipment != docs[j].shipment || docs[i].docType != docs[j].docType
  }

  ghost predicate UniqueItems(items: seq<Item>) {
    forall i, j :: 0 <= i < j < |items| ==> items[i].shipment != items[j].shipment || items[i].docType != items[j].docType
  }

  /** Versions of a document are 1..n in order and the document carries the last number. */
  ghost predicate Versioned(st: State, d: nat)
    requires d < |st.docs|
  {
    var rows := Rows(st.versions, d);
    |rows| == st.docs[d].version >= 1 && forall i :: 0 <= i < |rows| ==> rows[i].number == i + 1
  }

  function StatusAfter(action: Action): DocStatus {
    match action
    case Approve => DocApproved
    case Reject => Rejected
    case RequestRevision => RevisionRequested
    case _ => PendingReview
  }

  /** A document's status is what its last logged change says. */
  ghost predicate StatusLogged(st: State, d: nat)
    requires d < |st.docs|
  {
    && LastChange(st.log, d).Some?
    && st.docs[d].status == StatusAfter(LastChange(st.log, d).value.action)
    && LastDecision(st.log, d).Some?
  }

  function ItemStatusAfter(action: Action): ItemStatus {
    match action
    case Approve => Approved
    case Reject => Missing
    case _ => Uploaded
  }

  /** A linked item points at its own document and mirrors that document's last decision. */
  ghost predicate ItemLogged(st: State, i: nat)
    requires i < |st.items|
  {
    var item := st.items[i];
    item.doc.Some? ==>
      && item.doc.value < |st.docs|
      && st.docs[item.doc.value].shipment == item.shipment && st.docs[item.doc.value].docType == item.docType
      && LastDecision(st.log, item.doc.value).Some?
      && item.status == ItemStatusAfter(LastDecision(st.log, item.doc.value).value.action)
  }

  /** Every approval on record passed its type's role gate. */
  ghost predicate ApprovalsGated(st: State) {
    forall n :: 0 <= n < |st.log| ==>
      st.log[n].doc < |st.docs| && (st.log[n].action.Approve? ==> RoleMet(st.docs[st.log[n].doc].docType, st.log[n].roles))
  }

  /** The actor holds SUPER_ADMIN or one of the roles the type asks for, if it asks for any. */
  ghost predicate RoleMet(docType: string, roles: set<string>) {
    docType in GATES ==> "SUPER_ADMIN" in roles || exists role :: role in roles && role in GATES[docType]
  }

  ghost predicate Inv(st: State) {
    && UniqueDocs(st.docs) && UniqueItems(st.items) && ApprovalsGated(st)
    && (forall d: nat :: d < |st.docs| ==> Versioned(st, d) && StatusLogged(st, d))
    && (forall i: nat :: i < |st.items| ==> ItemLogged(st, i))
    && (forall n :: 0 <= n < |st.versions| ==> st.versions[n].doc < |st.docs|)
  }

  // ---------------------------------------------------------------- what each operation does

  lemma {:induction false} FoundItem(items: seq<Item>, i: nat)
    requires UniqueItems(items) && i < |items|
    ensures FindItem(items, items[i].shipment, items[i].docType) == Some(i)
  {
  }

  /** Exactly the items of this shipment and type change, to the new status and, if given, the new link. */
  ghost predicate Marked(items: seq<Item>, after: seq<Item>, shipment: nat, docType: string, status: ItemStatus, link: Option<nat>) {
    && |after| == |items|
    && forall i :: 0 <= i < |items| ==>
         after[i] == if items[i].shipment == shipment && items[i].docType == docType
                     then items[i].(status := status, doc := if link.Some? then link else items[i].doc) else items[i]
  }

  lemma MarkedExactly(items: seq<Item>, shipment: nat, docType: string, status: ItemStatus, link: Option<nat>)
    requires UniqueItems(items)
    ensures Marked(items, MarkItem(items, shipment, docType, status, link), shipment, docType, status, link)
  {
    forall i: nat | i < |items| && items[i].shipment == shipment && items[i].docType == docType
      ensures FindItem(items, shipment, docType) == Some(i)
    {
      FoundItem(items, i);
    }
  }

  /** An approval is accepted exactly of a known document by an actor who meets its role gate; then it is logged with the roles held. */
  lemma ApprovedExactly(st: State, d: nat, actor: nat, roles: set<string>)
    ensures var outcome := Step(st, DoApprove(d, actor, roles));
            && (outcome.Done? <==> d < |st.docs| && RoleMet(st.docs[d].docType, roles))
            && (outcome.Done? ==>
                  && outcome.value.docs == st.docs[d := st.docs[d].(status := DocApproved)] && outcome.value.versions == st.versions
                  && outcome.value.log == st.log + [LogEntry(d, actor, Approve, roles)]
                  && (UniqueItems(st.items) ==> Marked(st.items, outcome.value.items, st.docs[d].shipment, st.docs[d].docType, Approved, None)))
  {
    if d < |st.docs| {
      var docType := st.docs[d].docType;
      if docType in GATES && exists role :: role in roles && role in GATES[docType] {
        var role :| role in roles && role in GATES[docType];
        assert role in roles * GATES[docType];
      }
      if UniqueItems(st.items) {
        MarkedExactly(st.items, st.docs[d].shipment, docType, Approved, None);
      }
    }
  }

  /** A dangerous-goods declaration is approved by compliance or a super administrator, and by nobody else. */
  lemma DangerousGoodsGate(st: State, doc: nat, actor: nat, roles: set<string>)
    requires doc < |st.docs| && st.docs[doc].docType == "DGR_DECLARATION"
    ensures Step(st, DoApprove(doc, actor, roles)).Done?
            <==> "COMPLIANCE" in roles || "COMPLIANCE_OFFICER" in roles || "SUPER_ADMIN" in roles
  {
    DangerousGoodsRoles();
    ApprovedExactly(st, doc, actor, roles);
  }

  lemma DangerousGoodsRoles()
    ensures "DGR_DECLARATION" in GATES && GATES["DGR_DECLARATION"] == {"COMPLIANCE", "COMPLIANCE_OFFICER", "SUPER_ADMIN"}
  {
    assert "DGR_DECLARATION"[4] == 'D' && "DGR_EMERGENCY_RESPONSE"[4] == 'E' && "COMMERCIAL_INVOICE"[0] == 'C';
    assert "US_ISF_10_2"[0] == 'U' && "SABER_SASO_CERTIFICATE"[0] == 'S' && "PHYTOSANITARY_CERT"[0] == 'P';
    assert "BILL_OF_LADING"[0] == 'B' && "AIR_WAYBILL"[0] == 'A';
  }

  /** Without SUPER_ADMIN, roles that share none with the gate are refused. */
  lemma DisjointRolesAreRefused(st: State, d: nat, actor: nat, roles: set<string>)
    requires d < |st.docs| && st.docs[d].docType in GATES && roles !! GATES[st.docs[d].docType] && "SUPER_ADMIN" !in roles
    ensures Step(st, DoApprove(d, actor, roles)).Refused?
  {
    ApprovedExactly(st, d, actor, roles);
  }

  /** A rejection, and a request for revision, are accepted exactly of a known document; only the first reaches the checklist. */
  lemma SentBackExactly(st: State, d: nat, actor: nat)
    requires UniqueItems(st.items)
    ensures var outcome := Step(st, DoReject(d, actor));
            && (outcome.Done? <==> d < |st.docs|)
            && (outcome.Done? ==>
                  && outcome.value.docs == st.docs[d := st.docs[d].(status := Rejected)] && outcome.value.versions == st.versions
                  && outcome.value.log == st.log + [LogEntry(d, actor, Reject, {})]
                  && Marked(st.items, outcome.value.items, st.docs[d].shipment, st.docs[d].docType, Missing, None))
    ensures var outcome := Step(st, DoRequestRevision(d, actor));
            && (outcome.Done? <==> d < |st.docs|)
            && (outcome.Done? ==> outcome.value == State(st.docs[d := st.docs[d].(status := RevisionRequested)], st.versions, st.items,
                                                         st.log + [LogEntry(d, actor, RequestRevision, {})]))
  {
    if d < |st.docs| {
      MarkedExactly(st.items, st.docs[d].shipment, st.docs[d].docType, Missing, None);
    }
  }

  /** An upload is the next version of its document, waits for review, is logged, and is linked to its item. */
  lemma UploadedExactly(st: State, shipment: nat, docType: string, actor: nat, file: string)
    requires UniqueItems(st.items)
    ensures var after := UploadTo(st, shipment, docType, actor, file);
            exists d: nat ::
              && d < |after.docs| && |st.docs| <= |after.docs| <= |st.docs| + 1
              && (forall i :: 0 <= i < |st.docs| && i != d ==> after.docs[i] == st.docs[i])
              && after.docs[d] == Document(shipment, docType, if d < |st.docs| then st.docs[d].version + 1 else 1, PendingReview)
              && after.versions == st.versions + [Version(d, after.docs[d].version, file)]
              && after.log == st.log + [LogEntry(d, actor, Upload, {})]
              && Marked(st.items, after.items, shipment, docType, Uploaded, Some(d))
  {
    var found := FindDoc(st.docs, shipment, docType);
    var d := if found.Some? then found.value else |st.docs|;
    MarkedExactly(st.items, shipment, docType, Uploaded, Some(d));
    assert UploadTo(st, shipment, docType, actor, file).docs[d].version == if d < |st.docs| then st.docs[d].version + 1 else 1;
  }

  /** Every rule's type is on the checklist afterwards; what is new follows the first rule of its type and waits for a document. */
  ghost predicate Extended(items: seq<Item>, after: seq<Item>, shipment: nat, rules: seq<Rule>) {
    && items <= after
    && (forall k :: 0 <= k < |rules| ==> FindItem(after, shipment, rules[k].docType).Some?)
    && (forall i :: |items| <= i < |after| ==> FollowsRule(items, after[i], shipment, rules))
  }

  lemma {:induction false} ChecklistExactly(items: seq<Item>, shipment: nat, rules: seq<Rule>)
    ensures Extended(items, AddItems(items, shipment, rules), shipment, rules)
    decreases |rules|
  {
    if rules != [] {
      var n := |rules| - 1;
      ChecklistExactly(items, shipment, rules[..n]);
      OneMoreRule(items, AddItems(items, shipment, rules[..n]), AddItems(items, shipment, rules), shipment, rules);
    }
  }

  lemma OneMoreRule(items: seq<Item>, before: seq<Item>, after: seq<Item>, shipment: nat, rules: seq<Rule>)
    requires rules != [] && Extended(items, before, shipment, rules[..|rules| - 1])
    requires var rule := rules[|rules| - 1];
             after == if FindItem(before, shipment, rule.docType).Some? then before
                      else before + [Item(shipment, rule.docType, rule.mandatory, Required, None)]
    ensures Extended(items, after, shipment, rules)
  {
    var n := |rules| - 1;
    forall k | 0 <= k < |rules| ensures FindItem(after, shipment, rules[k].docType).Some? {
      if k < n {
        assert rules[..n][k] == rules[k];
        FoundLater(before, after, shipment, rules[k].docType);
      }
    }
    forall i | |items| <= i < |after| ensures FollowsRule(items, after[i], shipment, rules) {
      if i < |before| {
        StillFollows(items, before[i], shipment, rules, n);
      } else {
        NewFollows(items, before, shipment, rules);
      }
    }
  }

  lemma FoundLater(before: seq<Item>, after: seq<Item>, shipment: nat, docType: string)
    requires before <= after && FindItem(before, shipment, docType).Some?
    ensures FindItem(after, shipment, docType).Some?
  {
    var i := FindItem(before, shipment, docType).value;
    assert after[i] == before[i];
  }

  lemma StillFollows(items: seq<Item>, item: Item, shipment: nat, rules: seq<Rule>, n: nat)
    requires n <= |rules| && FollowsRule(items, item, shipment, rules[..n])
    ensures FollowsRule(items, item, shipment, rules)
  {
    var k :| FirstRule(rules[..n], k, item.docType) && item.mandatory == rules[..n][k].mandatory;
    assert FirstRule(rules, k, item.docType) by {
      assert forall j :: 0 <= j < k ==> rules[j] == rules[..n][j];
    }
  }

  lemma NewFollows(items: seq<Item>, before: seq<Item>, shipment: nat, rules: seq<Rule>)
    requires rules != [] && Extended(items, before, shipment, rules[..|rules| - 1])
    requires FindItem(before, shipment, rules[|rules| - 1].docType).None?
    ensures var rule := rules[|rules| - 1]; FollowsRule(items, Item(shipment, rule.docType, rule.mandatory, Required, None), shipment, rules)
  {
    var n := |rules| - 1;
    forall j | 0 <= j < n ensures rules[j].docType != rules[n].docType {
      assert rules[..n][j] == rules[j];
    }
    assert FirstRule(rules, n, rules[n].docType);
    if FindItem(items, shipment, rules[n].docType).Some? {
      FoundLater(items, before, shipment, rules[n].docType);
    }
  }

  ghost predicate FirstRule(rules: seq<Rule>, k: int, docType: string) {
    0 <= k < |rules| && rules[k].docType == docType && forall j :: 0 <= j < k ==> rules[j].docType != docType
  }

  ghost predicate FollowsRule(items: seq<Item>, item: Item, shipment: nat, rules: seq<Rule>) {
    && item.shipment == shipment && item.status.Required? && item.doc.None? && FindItem(items, shipment, item.docType).None?
    && exists k :: FirstRule(rules, k, item.docType) && item.mandatory == rules[k].mandatory
  }

  lemma LogAppended(log: seq<LogEntry>, e: LogEntry, d: nat)
    ensures LastDecision(log + [e], d)
            == if e.doc == d && (e.action.Upload? || e.action.Approve? || e.action.Reject?) then Some(e) else LastDecision(log, d)
    ensures LastChange(log + [e], d) == if e.doc == d && !e.action.View? then Some(e) else LastChange(log, d)
  {
    assert (log + [e])[..|log|] == log;
  }

  lemma VersionAppended(versions: seq<Version>, v: Version, d: nat)
    ensures Rows(versions + [v], d) == if v.doc == d then Rows(versions, d) + [v] else Rows(versions, d)
  {
    assert (versions + [v])[..|versions|] == versions;
  }

  lemma {:induction false} NoRows(versions: seq<Version>, d: nat)
    requires forall n :: 0 <= n < |versions| ==> versions[n].doc != d
    ensures Rows(versions, d) == []
  {
    if versions != [] {
      NoRows(versions[..|versions| - 1], d);
    }
  }

  lemma UploadKeepsVersions(st: State, shipment: nat, docType: string, actor: nat, file: string, d: nat)
    requires Inv(st) && d < |UploadTo(st, shipment, docType, actor, file).docs|
    ensures Versioned(UploadTo(st, shipment, docType, actor, file), d)
  {
    var after := UploadTo(st, shipment, docType, actor, file);
    var v := after.versions[|st.versions|];
    VersionAppended(st.versions, v, d);
    if d < |st.docs| {
      assert Versioned(st, d);
      NextVersion(Rows(st.versions, d), st.docs[d].version, v);
    } else {
      NoRows(st.versions, d);
    }
  }

  lemma NextVersion(rows: seq<Version>, n: nat, v: Version)
    requires |rows| == n && forall i :: 0 <= i < |rows| ==> rows[i].number == i + 1
    ensures v.number == n + 1 ==> forall i :: 0 <= i < |rows + [v]| ==> (rows + [v])[i].number == i + 1
  {
  }

  lemma UploadKeepsStatus(st: State, shipment: nat, docType: string, actor: nat, file: string, d: nat)
    requires Inv(st) && d < |UploadTo(st, shipment, docType, actor, file).docs|
    ensures StatusLogged(UploadTo(st, shipment, docType, actor, file), d)
  {
    var after := UploadTo(st, shipment, docType, actor, file);
    LogAppended(st.log, after.log[|st.log|], d);
    assert d < |st.docs| ==> StatusLogged(st, d);
  }

  lemma UploadKeepsItems(st: State, shipment: nat, docType: string, actor: nat, file: string, i: nat)
    requires Inv(st) && i < |st.items|
    ensures ItemLogged(UploadTo(st, shipment, docType, actor, file), i)
  {
    var after := UploadTo(st, shipment, docType, actor, file);
    assert ItemLogged(st, i);
    if after.items[i].doc.Some? {
      LogAppended(st.log, after.log[|st.log|], after.items[i].doc.value);
    }
  }

  lemma UploadKeepsInv(st: State, shipment: nat, docType: string, actor: nat, file: string)
    requires Inv(st)
    ensures Inv(UploadTo(st, shipment, docType, actor, file))
  {
    var after := UploadTo(st, shipment, docType, actor, file);
    forall d: nat | d < |after.docs| ensures Versioned(after, d) && StatusLogged(after, d) {
      UploadKeepsVersions(st, shipment, docType, actor, file, d);
      UploadKeepsStatus(st, shipment, docType, actor, file, d);
    }
    forall i: nat | i < |after.items| ensures ItemLogged(after, i) {
      UploadKeepsItems(st, shipment, docType, actor, file, i);
    }
  }

  lemma ActKeepsDoc(st: State, id: nat, entry: LogEntry, d: nat)
    requires Inv(st) && id < |st.docs| && entry.doc == id && !entry.action.Upload? && d < |st.docs|
    ensures Versioned(ActOn(st, id, entry), d) && StatusLogged(ActOn(st, id, entry), d)
  {
    assert Versioned(st, d) && StatusLogged(st, d);
    LogAppended(st.log, entry, d);
  }

  lemma ActKeepsItem(st: State, id: nat, entry: LogEntry, i: nat)
    requires Inv(st) && id < |st.docs| && entry.doc == id && !entry.action.Upload? && i < |st.items|
    ensures ItemLogged(ActOn(st, id, entry), i)
  {
    assert ItemLogged(st, i);
    if st.items[i].doc.Some? {
      LogAppended(st.log, entry, st.items[i].doc.value);
    }
  }

  lemma ActKeepsInv(st: State, id: nat, entry: LogEntry)
    requires Inv(st) && id < |st.docs| && entry.doc == id && !entry.action.Upload?
    requires entry.action.Approve? ==> RoleMet(st.docs[id].docType, entry.roles)
    ensures Inv(ActOn(st, id, entry))
  {
    var after := ActOn(st, id, entry);
    forall d: nat | d < |after.docs| ensures Versioned(after, d) && StatusLogged(after, d) {
      ActKeepsDoc(st, id, entry, d);
    }
    forall i: nat | i < |after.items| ensures ItemLogged(after, i) {
      ActKeepsItem(st, id, entry, i);
    }
  }

  lemma {:induction false} AddItemsKeeps(items: seq<Item>, shipment: nat, rules: seq<Rule>)
    requires UniqueItems(items)
    ensures var after := AddItems(items, shipment, rules);
            && UniqueItems(after) && items <= after
            && forall i :: |items| <= i < |after| ==> after[i].doc.None? && after[i].status.Required?
    decreases |rules|
  {
    if rules != [] {
      AddItemsKeeps(items, shipment, rules[..|rules| - 1]);
    }
  }

  lemma StepKeepsInv(st: State, op: Op)
    requires Inv(st) && Step(st, op).Done?
    ensures Inv(Step(st, op).value)
  {
    match op {
      case DoUpload(shipment, docType, actor, file) => UploadKeepsInv(st, shipment, docType, actor, file);
      case DoApprove(doc, actor, roles) =>
        ApprovedExactly(st, doc, actor, roles);
        ActKeepsInv(st, doc, LogEntry(doc, actor, Approve, roles));
      case DoReject(doc, actor) => ActKeepsInv(st, doc, LogEntry(doc, actor, Reject, {}));
      case DoRequestRevision(doc, actor) => ActKeepsInv(st, doc, LogEntry(doc, actor, RequestRevision, {}));
      case DoView(doc, actor) => ActKeepsInv(st, doc, LogEntry(doc, actor, View, {}));
      case DoGenerateChecklist(shipment, rules) =>
        AddItemsKeeps(st.items, shipment, rules);
        var after := Step(st, op).value;
        forall i: nat | i < |after.items| ensures ItemLogged(after, i) {
          if i < |st.items| {
            assert ItemLogged(st, i);
          }
        }
        forall d: nat | d < |after.docs| ensures Versioned(after, d) && StatusLogged(after, d) {
          assert Versioned(st, d) && StatusLogged(st, d);
        }
    }
  }

  /** Every run: versions 1..n under each document, statuses as logged, approvals gated, links true. */
  lemma {:induction false} RunKeepsInv(ops: seq<Op>)
    ensures Inv(Run(ops))
    decreases |ops|
  {
    if ops != [] {
      RunKeepsInv(ops[..|ops| - 1]);
      var before := Run(ops[..|ops| - 1]);
      if Step(before, ops[|ops| - 1]).Done? {
        StepKeepsInv(before, ops[|ops| - 1]);
      }
    }
  }

  /** The gate's verdict, as `ValidateTransition` computes it. */
  predicate CanProceed(st: State, shipment: nat) {
    forall i :: 0 <= i < |st.items| && st.items[i].shipment == shipment && st.items[i].mandatory ==>
      st.items[i].doc.Some? && st.items[i].status.Approved?
  }

  /** What the gate promises of one checklist item: a document whose last decision was an authorised approval. */
  ghost predicate Cleared(st: State, item: Item) {
    && item.doc.Some? && item.doc.value < |st.docs|
    && st.docs[item.doc.value].shipment == item.shipment && st.docs[item.doc.value].docType == item.docType
    && LastDecision(st.log, item.doc.value).Some?
    && LastDecision(st.log, item.doc.value).value.action.Approve?
    && RoleMet(item.docType, LastDecision(st.log, item.doc.value).value.roles)
  }

  lemma {:induction false} DecisionIsLogged(log: seq<LogEntry>, doc: nat)
    requires LastDecision(log, doc).Some?
    ensures exists n :: 0 <= n < |log| && log[n] == LastDecision(log, doc).value && log[n].doc == doc
  {
    var last := |log| - 1;
    if !(log[last].doc == doc && (log[last].action.Upload? || log[last].action.Approve? || log[last].action.Reject?)) {
      DecisionIsLogged(log[..last], doc);
      var n :| 0 <= n < last && log[..last][n] == LastDecision(log, doc).value && log[..last][n].doc == doc;
      assert log[n] == log[..last][n];
    }
  }

  /**
   In every run the gate allows a transition exactly when every mandatory item is cleared: its linked
   document's last upload, approval or rejection is an approval by an actor who met that type's role gate.
   */
  lemma GateIsExact(ops: seq<Op>, shipment: nat)
    ensures var st := Run(ops);
            CanProceed(st, shipment) <==>
            forall i :: 0 <= i < |st.items| && st.items[i].shipment == shipment && st.items[i].mandatory ==> Cleared(st, st.items[i])
  {
    var st := Run(ops);
    RunKeepsInv(ops);
    forall i: nat | i < |st.items|
      ensures (st.items[i].doc.Some? && st.items[i].status.Approved?) <==> Cleared(st, st.items[i])
    {
      assert ItemLogged(st, i);
      if st.items[i].doc.Some? {
        DecisionIsLogged(st.log, st.items[i].doc.value);
      }
    }
  }

  /** The document behind a cleared item is approved exactly when no revision was requested since. */
  lemma ClearedDocumentStatus(ops: seq<Op>, item: Item)
    requires item in Run(ops).items && Cleared(Run(ops), item)
    ensures var st, d := Run(ops), item.doc.value;
            && (st.docs[d].status.DocApproved? || st.docs[d].status.RevisionRequested?)
            && (st.docs[d].status.DocApproved? <==> LastChange(st.log, d) == LastDecision(st.log, d))
  {
    var st, d := Run(ops), item.doc.value;
    RunKeepsInv(ops);
    assert StatusLogged(st, d);
    ChangeOrDecision(st.log, d);
  }

  lemma {:induction false} ChangeOrDecision(log: seq<LogEntry>, d: nat)
    ensures LastDecision(log, d).Some? ==>
              LastChange(log, d) == LastDecision(log, d)
              || (LastChange(log, d).Some? && LastChange(log, d).value.action.RequestRevision?)
  {
    if log != [] {
      ChangeOrDecision(log[..|log| - 1], d);
    }
  }

  /** What was logged or versioned stays, untouched and in place, whatever the run does next. */
  lemma {:induction false} HistoryIsAppendOnly(ops: seq<Op>, n: nat)
    requires n <= |ops|
    ensures Run(ops[..n]).versions <= Run(ops).versions && Run(ops[..n]).log <= Run(ops).log
    decreases |ops| - n
  {
    if n < |ops| {
      assert ops[..n + 1][..n] == ops[..n];
      HistoryIsAppendOnly(ops, n + 1);
    } else {
      assert ops[..n] == ops;
    }
  }

  lemma RunSnoc(ops: seq<Op>, op: Op)
    ensures Run(ops + [op]) == match Step(Run(ops), op) case Done(after) => after case Refused(_) => Run(ops)
  {
    assert (ops + [op])[..|ops|] == ops;
  }

  /** Checklist of one mandatory item, upload, authorised approval, request for revision. */
  function RevisionRun(shipment: nat, docType: string, roles: set<string>): seq<Op> {
    [DoGenerateChecklist(shipment, [Rule(docType, true)])] + [DoUpload(shipment, docType, 7, "file")]
    + [DoApprove(0, 8, roles)] + [DoRequestRevision(0, 9)]
  }

  lemma ApprovedOnce(shipment: nat, docType: string, roles: set<string>)
    requires RoleMet(docType, roles)
    ensures var st := Run(RevisionRun(shipment, docType, roles)[..3]);
            && st.docs == [Document(shipment, docType, 1, DocApproved)]
            && st.items == [Item(shipment, docType, true, Approved, Some(0))]
  {
    var a, b, c := DoGenerateChecklist(shipment, [Rule(docType, true)]), DoUpload(shipment, docType, 7, "file"), DoApprove(0, 8, roles);
    assert RevisionRun(shipment, docType, roles)[..3] == [] + [a] + [b] + [c];
    RunSnoc([], a);
    RunSnoc([] + [a], b);
    RunSnoc([] + [a] + [b], c);
    ApprovedExactly(Run([] + [a] + [b]), 0, 8, roles);
    ChecklistOfOne(Item(shipment, docType, true, Required, None));
  }

  /**
   For every document type and every authorised approver: a request for revision after the approval does
   not close the gate. The document waits for revision and the transition is allowed.
   */
  lemma GateIgnoresRevision(shipment: nat, docType: string, roles: set<string>)
    requires RoleMet(docType, roles)
    ensures var st := Run(RevisionRun(shipment, docType, roles));
            && st.docs == [Document(shipment, docType, 1, RevisionRequested)]
            && st.items == [Item(shipment, docType, true, Approved, Some(0))]
            && CanProceed(st, shipment)
  {
    var ops := RevisionRun(shipment, docType, roles);
    ApprovedOnce(shipment, docType, roles);
    assert ops == ops[..3] + [DoRequestRevision(0, 9)];
    RunSnoc(ops[..3], DoRequestRevision(0, 9));
  }

  lemma ChecklistOfOne(item: Item)
    requires item.status.Required? && item.doc.None?
    ensures AddItems([], item.shipment, [Rule(item.docType, item.mandatory)]) == [item]
    ensures FindItem([item], item.shipment, item.docType) == Some(0)
  {
    assert [Rule(item.docType, item.mandatory)][..0] == [];
    assert [] + [item] == [item];
  }
}
