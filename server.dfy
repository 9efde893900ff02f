/**
 * The bookkeeping of the FastAPI server in app.py: the in-memory
 * conversation store behind /ask and /conversations/{id}, the document
 * record built by /upload, and the per-document fold of /documents.
 * Everything outside the process (uuid generation, the Pinecone index, the
 * LLM chain, the PDF loaders) arrives as a parameter.
 */
module Server {
  import opened Wrappers
  import opened Text
  import Extraction
  import Indexer

  /** `x or default` for a string. */
  function OrDefault(s: string, default: string): string {
    if s != "" then s else default
  }

  // ---------------------------------------------------------------------
  // /ask and /conversations/{id}
  // ---------------------------------------------------------------------

  /** One `(question, answer)` pair of a conversation. */
  datatype Turn = Turn(question: string, answer: string)

  datatype QuestionRequest = QuestionRequest(question: string, conversationId: Option<string>, metadataOnly: bool)

  /** Why a call of `answer_question` raised. */
  datatype AnswerError =
    | UnexpectedKeyword(name: string)   // TypeError: the callee has no such parameter
    | ChainRaised                       // the QA chain itself raised

  datatype AskFailure =
    | IndexUnavailable                  // the HTTPException(503) of app.py:158, before re-wrapping
    | ChainCreationFailed
    | AnswerRaised(error: AnswerError)

  datatype AskResponse =
    | Answered(answer: string, conversationId: string)
    | AskFailed(status: nat, cause: AskFailure)

  /** The QA chain as an oracle: an answer for a question and a history, or `None` when it raises. */
  type QaChain = (string, seq<Turn>) -> Option<string>

  /**
   * The call at app.py:165-170 as written. `answer_question` (qa_utils.py:26)
   * takes only the chain, the question and the history, so passing
   * `metadata_only=` raises TypeError before the chain is consulted.
   */
  function AnswerQuestionAsWritten(chain: QaChain, question: string, history: seq<Turn>, metadataOnly: bool)
    : Result<string, AnswerError>
  {
    Failure(UnexpectedKeyword("metadata_only"))
  }

  /** The call without the extra keyword: the chain's answer, or its failure. */
  function AnswerQuestion(chain: QaChain, question: string, history: seq<Turn>, metadataOnly: bool)
    : Result<string, AnswerError>
  {
    match chain(question, history)
    case Some(answer) => Success(answer)
    case None => Failure(ChainRaised)
  }

  /** `request.conversation_id or str(uuid.uuid4())`: an absent or empty id is replaced by the fresh one. */
  function ResolveId(request: QuestionRequest, freshId: string): string {
    if request.conversationId.Some? && request.conversationId.value != "" then request.conversationId.value
    else freshId
  }

  /** The store after the create-on-first-use step of app.py:152-153. */
  function Register(history: map<string, seq<Turn>>, id: string): map<string, seq<Turn>> {
    if id in history then history else history[id := []]
  }

  /**
   * One /ask request against the store: the new store and the response.
   * `indexAvailable` is the outcome of `get_index()`, `chainCreated` that of
   * `create_qa_chain`, and `answer` is how the handler calls
   * `answer_question`. Every failure is reported with status 500, since
   * the bare `except` re-wraps the 503 as well.
   */
  function AskTransition(
    history: map<string, seq<Turn>>, request: QuestionRequest, freshId: string,
    indexAvailable: bool, chainCreated: bool, answer: (string, seq<Turn>, bool) -> Result<string, AnswerError>)
    : (map<string, seq<Turn>>, AskResponse)
  {
    var id := ResolveId(request, freshId);
    var registered := Register(history, id);
    if !indexAvailable then (registered, AskFailed(500, IndexUnavailable))
    else if !chainCreated then (registered, AskFailed(500, ChainCreationFailed))
    else match answer(request.question, registered[id], request.metadataOnly)
      case Failure(e) => (registered, AskFailed(500, AnswerRaised(e)))
      case Success(a) => (registered[id := registered[id] + [Turn(request.question, a)]], Answered(a, id))
  }

  /**
   * The resolved id is registered whatever happens next; other
   * conversations are untouched; a failed request changes nothing but the
   * registration and always reports 500; a successful one appends exactly
   * the new turn at the end of the history it answered from and returns
   * the resolved id.
   */
  lemma AskBookkeeping(
    history: map<string, seq<Turn>>, request: QuestionRequest, freshId: string,
    indexAvailable: bool, chainCreated: bool, answer: (string, seq<Turn>, bool) -> Result<string, AnswerError>)
    ensures var id := ResolveId(request, freshId);
      var (after, response) := AskTransition(history, request, freshId, indexAvailable, chainCreated, answer);
      after.Keys == history.Keys + {id}
      && (forall other :: other in history && other != id ==> after[other] == history[other])
      && (response.AskFailed? ==>
            response.status == 500 && after[id] == (if id in history then history[id] else []))
      && (response.Answered? ==>
            response.conversationId == id
            && after[id] == (if id in history then history[id] else []) + [Turn(request.question, response.answer)])
      && (response.Answered? <==>
            indexAvailable && chainCreated
            && answer(request.question, (if id in history then history[id] else []), request.metadataOnly).Success?)
  {
  }

  /** A supplied non-empty id is used as is; otherwise the fresh id is. */
  lemma ResolveIdChoice(request: QuestionRequest, freshId: string)
    ensures request.conversationId.Some? && request.conversationId.value != "" ==>
      ResolveId(request, freshId) == request.conversationId.value
    ensures request.conversationId.None? || request.conversationId == Some("") ==>
      ResolveId(request, freshId) == freshId
  {
  }

  /**
   * As written, no question is ever answered: with the index and the chain
   * available the call of `answer_question` still raises, so the response
   * is a 500 and the only effect on the store is the registration.
   */
  lemma AskAsWrittenNeverAnswers(
    history: map<string, seq<Turn>>, request: QuestionRequest, freshId: string,
    indexAvailable: bool, chainCreated: bool, chain: QaChain)
    ensures var (after, response) := AskTransition(history, request, freshId, indexAvailable, chainCreated,
                                                   (q, h, m) => AnswerQuestionAsWritten(chain, q, h, m));
      response.AskFailed? && response.status == 500
      && after == Register(history, ResolveId(request, freshId))
      && (indexAvailable && chainCreated ==> response.cause == AnswerRaised(UnexpectedKeyword("metadata_only")))
  {
    var answer := (q, h, m) => AnswerQuestionAsWritten(chain, q, h, m);
    var id := ResolveId(request, freshId);
    if indexAvailable && chainCreated {
      assert answer(request.question, Register(history, id)[id], request.metadataOnly)
          == Failure(UnexpectedKeyword("metadata_only"));
    }
  }

  /** With the keyword dropped, a request is answered exactly when the index, the chain and its answer all succeed. */
  lemma AskCorrectedAnswers(
    history: map<string, seq<Turn>>, request: QuestionRequest, freshId: string,
    indexAvailable: bool, chainCreated: bool, chain: QaChain)
    ensures var id := ResolveId(request, freshId);
      var (after, response) := AskTransition(history, request, freshId, indexAvailable, chainCreated,
                                             (q, h, m) => AnswerQuestion(chain, q, h, m));
      var past := Register(history, id)[id];
      (response.Answered? <==> indexAvailable && chainCreated && chain(request.question, past).Some?)
      && (response.Answered? ==>
            response == Answered(chain(request.question, past).value, id)
            && after == history[id := past + [Turn(request.question, response.answer)]])
  {
    var answer := (q, h, m) => AnswerQuestion(chain, q, h, m);
    var id := ResolveId(request, freshId);
    var past := Register(history, id)[id];
    assert answer(request.question, past, request.metadataOnly) == AnswerQuestion(chain, request.question, past, request.metadataOnly);
    if chain(request.question, past).Some? {
      var turn := Turn(request.question, chain(request.question, past).value);
      assert Register(history, id)[id := past + [turn]] == history[id := past + [turn]];
    }
  }

  /** The history a chain sees across a run of questions on one conversation, all answered. */
  function Conversation(questions: seq<string>, answers: seq<string>): seq<Turn>
    requires |questions| == |answers|
    decreases |questions|
  {
    if |questions| == 0 then []
    else
      Conversation(questions[..|questions| - 1], answers[..|answers| - 1]) + [Turn(questions[|questions| - 1], answers[|answers| - 1])]
  }

  /**
   * Asking the questions one after another on the same conversation, with
   * every answer obtained, leaves that conversation's history as the turns
   * in asking order after what it held before.
   */
  lemma {:induction false} AnsweredRunAppendsInOrder(
    history: map<string, seq<Turn>>, id: string, questions: seq<string>, answers: seq<string>)
    requires |questions| == |answers|
    ensures var stored := AnsweredRun(history, id, questions, answers);
      (|questions| > 0 ==> id in stored && stored[id] == Register(history, id)[id] + Conversation(questions, answers))
      && forall other :: other in history && other != id ==> other in stored && stored[other] == history[other]
    decreases |questions|
  {
    if |questions| > 0 {
      var n := |questions| - 1;
      AnsweredRunAppendsInOrder(history, id, questions[..n], answers[..n]);
      var before := AnsweredRun(history, id, questions[..n], answers[..n]);
      var reg, turn := Register(before, id), Turn(questions[n], answers[n]);
      var conv := Conversation(questions[..n], answers[..n]);
      AnsweredStep(before, id, questions[n], answers[n]);
      assert Conversation(questions, answers) == conv + [turn];
      if n > 0 {
        assert reg[id] + [turn] == Register(history, id)[id] + (conv + [turn]);
      } else {
        assert conv == [] && reg == Register(history, id);
      }
    }
  }

  /** One answered question on conversation `id` appends its turn there. */
  lemma AnsweredStep(before: map<string, seq<Turn>>, id: string, question: string, answer: string)
    ensures AskTransition(before, QuestionRequest(question, Some(id), false), id, true, true, (q, h, m) => Success(answer)).0
         == Register(before, id)[id := Register(before, id)[id] + [Turn(question, answer)]]
  {
  }

  /** The store after asking the questions in turn on conversation `id`, each obtaining its answer. */
  function AnsweredRun(history: map<string, seq<Turn>>, id: string, questions: seq<string>, answers: seq<string>)
    : map<string, seq<Turn>>
    requires |questions| == |answers|
    decreases |questions|
  {
    if |questions| == 0 then history
    else
      var n := |questions| - 1;
      var before := AnsweredRun(history, id, questions[..n], answers[..n]);
      AskTransition(before, QuestionRequest(questions[n], Some(id), false), id, true, true,
                    (q, h, m) => Success(answers[n])).0
  }

  /** The `conversation_history` dictionary and the two handlers that change it. */
  class ConversationStore {
    var history: map<string, seq<Turn>>

    constructor()
      ensures history == map[]
    {
      history := map[];
    }

    /** `ask_question` (app.py:146-183). */
    method Ask(
      request: QuestionRequest, freshId: string, indexAvailable: bool, chainCreated: bool,
      answer: (string, seq<Turn>, bool) -> Result<string, AnswerError>)
      returns (response: AskResponse)
      modifies this
      ensures (history, response)
        == AskTransition(old(history), request, freshId, indexAvailable, chainCreated, answer)
    {
      var conversationId := freshId;
      if request.conversationId.Some? && request.conversationId.value != "" {
        conversationId := request.conversationId.value;
      }
      if conversationId !in history {
        history := history[conversationId := []];
      }
      if !indexAvailable {
        return AskFailed(500, IndexUnavailable);
      }
      if !chainCreated {
        return AskFailed(500, ChainCreationFailed);
      }
      var chatHistory := history[conversationId];
      var result := answer(request.question, chatHistory, request.metadataOnly);
      if result.Failure? {
        return AskFailed(500, AnswerRaised(result.error));
      }
      history := history[conversationId := history[conversationId] + [Turn(request.question, result.value)]];
      return Answered(result.value, conversationId);
    }

    /** `clear_conversation` (app.py:237-242): drop the key if present; always report success. */
    method Clear(conversationId: string) returns (status: string)
      modifies this
      ensures history == old(history) - {conversationId}
      ensures conversationId !in history
      ensures forall other :: other in old(history) && other != conversationId ==>
        other in history && history[other] == old(history)[other]
      ensures status == "success"
    {
      if conversationId in history {
        history := map k | k in history && k != conversationId :: history[k];
      }
      status := "success";
    }
  }

  /** After a conversation is cleared, the next answered question on it starts a history of one turn. */
  lemma ClearThenAsk(history: map<string, seq<Turn>>, id: string, question: string, a: string)
    ensures var request := QuestionRequest(question, Some(id), false);
      AskTransition(history - {id}, request, id, true, true, (q, h, m) => Success(a)).0[id] == [Turn(question, a)]
  {
    AskBookkeeping(history - {id}, QuestionRequest(question, Some(id), false), id, true, true, (q, h, m) => Success(a));
  }

  // ---------------------------------------------------------------------
  // /upload
  // ---------------------------------------------------------------------

  /** The `DocumentMetadata` response model. */
  datatype DocumentMetadata = DocumentMetadata(
    id: string, title: string, authors: string, organizations: string, emails: string)

  datatype UploadFailure =
    | NotPdf
    | SaveFailed
    | LoadFailed
    | NlpFailed             // spaCy's `nlp(text)` raised (e.g. a text over `nlp.max_length`)
    | OpenFailed
    | PeopleFailed(error: Extraction.ExtractionError)
    | MissingContent        // KeyError: extracted_info has no "content"

  datatype UploadResponse =
    | Uploaded(metadata: DocumentMetadata, job: Indexer.Document)
    | UploadFailed(status: nat, cause: UploadFailure)

  const UnknownTitle: string := "Unknown Title"
  const UnknownAuthors: string := "Unknown Authors"
  const UnknownOrganizations: string := "Unknown Organizations"
  const NoEmails: string := "No email information"
  const NoAbstract: string := "No abstract available"
  const NoContent: string := "No content available"

  /**
   * The `document_data` dictionary of app.py:117-125: each field is the
   * extracted value or its default when that is empty. Reading
   * `extracted_info["content"]` fails when the key is missing.
   */
  function DocumentData(fileId: string, info: Extraction.ExtractedInfo, people: Extraction.People)
    : (r: Result<Indexer.Document, UploadFailure>)
    ensures r.Failure? <==> info.content.None?
    ensures r.Failure? ==> r.error == MissingContent
    ensures r.Success? ==>
      var d := r.value;
      var authors, organizations, emails := Join(people.authors, ", "), Join(people.organizations, ", "), Join(info.emails, ", ");
      d.id == fileId
      && d.title != "" && d.authors != "" && d.organizations != "" && d.emails != ""
      && d.content != "" && d.fullContent != ""
      && (info.title != "" ==> d.title == info.title)
      && (info.title == "" ==> d.title == UnknownTitle)
      && (people.authors == [] ==> d.authors == UnknownAuthors)
      && (authors == "" ==> d.authors == UnknownAuthors)
      && (authors != "" ==> d.authors == authors)
      && (people.organizations == [] ==> d.organizations == UnknownOrganizations)
      && (organizations == "" ==> d.organizations == UnknownOrganizations)
      && (organizations != "" ==> d.organizations == organizations)
      && (info.emails == [] ==> d.emails == NoEmails)
      && (emails == "" ==> d.emails == NoEmails)
      && (emails != "" ==> d.emails == emails)
      && (info.abstractText.None? || info.abstractText == Some("") ==> d.content == NoAbstract)
      && (info.abstractText.Some? && info.abstractText.value != "" ==> d.content == info.abstractText.value)
      && (info.content.value == "" ==> d.fullContent == NoContent)
      && (info.content.value != "" ==> d.fullContent == info.content.value)
  {
    match info.content
    case None => Failure(MissingContent)
    case Some(fullContent) =>
      Success(Indexer.Document(
        fileId,
        OrDefault(info.title, UnknownTitle),
        OrDefault(Join(people.authors, ", "), UnknownAuthors),
        OrDefault(Join(people.organizations, ", "), UnknownOrganizations),
        OrDefault(Join(info.emails, ", "), NoEmails),
        OrDefault(if info.abstractText.Some? then info.abstractText.value else "", NoAbstract),
        OrDefault(fullContent, NoContent)))
  }

  /** The five fields the handler returns. */
  function MetadataOf(d: Indexer.Document): DocumentMetadata {
    DocumentMetadata(d.id, d.title, d.authors, d.organizations, d.emails)
  }

  /**
   * `upload_paper`. The oracles: `saved` (writing the upload to disk
   * succeeded), `loadedPages` (PyPDFLoader's page contents, `None` when it
   * raises), `nlpRaised` (whether spaCy's `nlp(text)` on the joined text
   * raises), `plumberPages` (pdfplumber's page texts, `None` when opening
   * raises), the two matchers, and `parse`, the reading of
   * `parse_and_extract` in force. The job is the one-document list handed
   * to the background indexing task.
   */
  method UploadPaper(
    filename: string, fileId: string, saved: bool,
    loadedPages: Option<seq<string>>, nlpRaised: bool, plumberPages: Option<seq<string>>,
    findNames: string -> seq<string>, findOrganizations: string -> seq<string>,
    parse: seq<string> -> Extraction.ExtractedInfo)
    returns (response: UploadResponse)
    ensures !EndsWith(filename, ".pdf") <==> response == UploadFailed(400, NotPdf)
    ensures response.UploadFailed? ==> response.status == 400 || response.status == 500
    ensures response.UploadFailed? && response.status == 500 ==> response.cause != NotPdf
    ensures EndsWith(filename, ".pdf") ==>
      (!saved ==> response == UploadFailed(500, SaveFailed))
      && (saved && loadedPages.None? ==> response == UploadFailed(500, LoadFailed))
      && (saved && loadedPages.Some? && nlpRaised ==> response == UploadFailed(500, NlpFailed))
      && (saved && loadedPages.Some? && !nlpRaised && plumberPages.None? ==> response == UploadFailed(500, OpenFailed))
      && (saved && loadedPages.Some? && !nlpRaised && plumberPages.Some? ==>
            (plumberPages.value == [] ==> response == UploadFailed(500, PeopleFailed(Extraction.NoPages)))
            && (plumberPages.value != [] && plumberPages.value[0] == "" ==>
                  response == UploadFailed(500, PeopleFailed(Extraction.NoTextOnFirstPage)))
            && (plumberPages.value != [] && plumberPages.value[0] != "" ==>
                  (parse(loadedPages.value).content.None? <==> response == UploadFailed(500, MissingContent))
                  && (parse(loadedPages.value).content.Some? <==> response.Uploaded?)))
    ensures response.Uploaded? ==>
      saved && loadedPages.Some? && !nlpRaised && plumberPages.Some? && plumberPages.value != []
      && response.metadata == MetadataOf(response.job)
      && (exists people :: Extraction.PeopleOf(people, plumberPages.value[0], findNames, findOrganizations)
            && DocumentData(fileId, parse(loadedPages.value), people) == Success(response.job))
  {
    if !EndsWith(filename, ".pdf") {
      return UploadFailed(400, NotPdf);
    }
    if !saved {
      return UploadFailed(500, SaveFailed);
    }
    if loadedPages.None? {
      return UploadFailed(500, LoadFailed);
    }
    if nlpRaised {
      return UploadFailed(500, NlpFailed);
    }
    var extractedInfo := parse(loadedPages.value);
    if plumberPages.None? {
      return UploadFailed(500, OpenFailed);
    }
    var people := Extraction.ExtractAuthorsAndOrganizations(plumberPages.value, findNames, findOrganizations);
    if people.Failure? {
      return UploadFailed(500, PeopleFailed(people.error));
    }
    var documentData := DocumentData(fileId, extractedInfo, people.value);
    if documentData.Failure? {
      return UploadFailed(500, documentData.error);
    }
    return Uploaded(MetadataOf(documentData.value), documentData.value);
  }

  /**
   * As written, building the record always fails: `parse_and_extract`
   * never sets "content", so every upload that gets this far is a 500.
   */
  lemma UploadAsWrittenFails(fileId: string, pages: seq<string>, people: Extraction.People)
    ensures DocumentData(fileId, Extraction.ParseAndExtract(pages), people) == Failure(MissingContent)
  {
  }

  /**
   * With "content" set to the joined page text, the record is built; its
   * title is the first line and its full content the page text (or their
   * defaults when empty).
   */
  lemma UploadWithContentSucceeds(fileId: string, pages: seq<string>, people: Extraction.People)
    ensures var r := DocumentData(fileId, Extraction.ParseAndExtractWithContent(pages), people);
      r.Success?
      && r.value.title == OrDefault(Extraction.ParseAndExtract(pages).title, UnknownTitle)
      && r.value.content == NoAbstract
      && r.value.fullContent == OrDefault(Extraction.PagesText(pages), NoContent)
  {
  }

  /**
   * The record returned to the client is what gets indexed: the background
   * job yields the four metadata entries `{id}_title`, ... whose texts are
   * exactly the returned fields, and chunk entries only when the full
   * content is not blank.
   */
  lemma UploadedRecordIsIndexed(d: Indexer.Document, encode: Indexer.Encoder)
    requires d.id != ""
    ensures var entries := Indexer.AllEntries([d], encode);
      |entries| >= 4
      && entries[0].id == MetadataOf(d).id + "_title" && entries[0].metadata.text == MetadataOf(d).title
      && entries[1].id == MetadataOf(d).id + "_authors" && entries[1].metadata.text == MetadataOf(d).authors
      && entries[2].id == MetadataOf(d).id + "_organizations" && entries[2].metadata.text == MetadataOf(d).organizations
      && entries[3].id == MetadataOf(d).id + "_emails" && entries[3].metadata.text == MetadataOf(d).emails
  {
    assert [d][..0] == [];
    Indexer.DocumentEntriesShape(d, encode);
  }

  // ---------------------------------------------------------------------
  // /documents
  // ---------------------------------------------------------------------

  /** The metadata of a query match, each key possibly missing. */
  datatype Match = Match(documentId: Option<string>, kind: Option<string>, text: Option<string>)

  /** `doc_id and ...`: a present, non-empty document id. */
  predicate HasDocumentId(m: Match) {
    m.documentId.Some? && m.documentId.value != ""
  }

  /** The match carries the (truthy) document id `id`. */
  predicate CarriesId(m: Match, id: string) {
    HasDocumentId(m) && m.documentId.value == id
  }

  /** The distinct truthy document ids of the matches, in first-seen order. */
  function FirstSeenIds(matches: seq<Match>): seq<string>
    decreases |matches|
  {
    if |matches| == 0 then []
    else
      var seen := FirstSeenIds(matches[..|matches| - 1]);
      var m := matches[|matches| - 1];
      if HasDocumentId(m) && m.documentId.value !in seen then seen + [m.documentId.value] else seen
  }

  /** The match has document id `id` and type `kind`. */
  predicate Hit(m: Match, id: string, kind: string) {
    m.documentId == Some(id) && m.kind == Some(kind)
  }

  /** `next((m for m in matches if ...), None)` for one document id and one type. */
  function FirstMatch(matches: seq<Match>, id: string, kind: string): (r: Option<Match>)
    decreases |matches|
  {
    if |matches| == 0 then None
    else if Hit(matches[0], id, kind) then Some(matches[0])
    else FirstMatch(matches[1..], id, kind)
  }

  /** One field of a listed record: the first such match's "text", else the default. */
  function FieldText(matches: seq<Match>, id: string, kind: string, default: string): string {
    match FirstMatch(matches, id, kind)
    case None => default
    case Some(m) => if m.text.Some? then m.text.value else default
  }

  /** The record app.py:223-229 builds for a document id. */
  function Record(matches: seq<Match>, id: string): DocumentMetadata {
    DocumentMetadata(
      id,
      FieldText(matches, id, "title", UnknownTitle),
      FieldText(matches, id, "authors", UnknownAuthors),
      FieldText(matches, id, "organizations", UnknownOrganizations),
      FieldText(matches, id, "emails", NoEmails))
  }

  /** The listing for a query's matches: one record per first-seen document id. */
  function Listing(matches: seq<Match>): seq<DocumentMetadata> {
    var ids := FirstSeenIds(matches);
    seq(|ids|, k requires 0 <= k < |ids| => Record(matches, ids[k]))
  }

  /**
   * `list_documents`: no index or a failed query (`None`) gives the empty
   * list; otherwise the loop over the matches fills the `documents`
   * dictionary, each new document id in its order of first appearance.
   */
  method ListDocuments(indexAvailable: bool, queryResult: Option<seq<Match>>) returns (listed: seq<DocumentMetadata>)
    ensures !indexAvailable || queryResult.None? ==> listed == []
    ensures indexAvailable && queryResult.Some? ==> listed == Listing(queryResult.value)
  {
    if !indexAvailable || queryResult.None? {
      return [];
    }
    var matches := queryResult.value;
    var documents: map<string, DocumentMetadata> := map[];
    var order: seq<string> := [];
    for i := 0 to |matches|
      invariant order == FirstSeenIds(matches[..i])
      invariant forall id :: id in documents <==> id in order
      invariant forall k :: 0 <= k < |order| ==> documents[order[k]] == Record(matches, order[k])
    {
      assert matches[..i + 1][..i] == matches[..i];
      var docId := matches[i].documentId;
      if docId.Some? && docId.value != "" && docId.value !in documents {
        assert docId.value !in order;
        documents := documents[docId.value := Record(matches, docId.value)];
        order := order + [docId.value];
      } else if docId.Some? && docId.value != "" {
        assert docId.value in order;
      }
    }
    assert matches[..|matches|] == matches;
    listed := seq(|order|, k requires 0 <= k < |order| => documents[order[k]]);
  }

  /** Each listed id is distinct, and an id is listed exactly when some match carries it. */
  lemma {:induction false} FirstSeenIdsMembers(matches: seq<Match>)
    ensures NoDup(FirstSeenIds(matches))
    ensures forall id :: id in FirstSeenIds(matches) <==>
      exists k :: 0 <= k < |matches| && CarriesId(matches[k], id)
    decreases |matches|
  {
    if |matches| > 0 {
      var init := matches[..|matches| - 1];
      FirstSeenIdsMembers(init);
      forall id, k | 0 <= k < |init| && CarriesId(init[k], id)
        ensures exists j :: 0 <= j < |matches| && CarriesId(matches[j], id)
      {
        assert matches[k] == init[k];
      }
      forall id | exists k :: 0 <= k < |matches| && CarriesId(matches[k], id)
        ensures id in FirstSeenIds(matches)
      {
        var k :| 0 <= k < |matches| && CarriesId(matches[k], id);
        if k < |init| {
          assert init[k] == matches[k];
        }
      }
    }
  }

  /** Some match carrying `a` comes before every match carrying `b`. */
  predicate SeenBefore(matches: seq<Match>, a: string, b: string) {
    exists p :: 0 <= p < |matches| && CarriesId(matches[p], a)
      && forall q :: 0 <= q <= p ==> !CarriesId(matches[q], b)
  }

  lemma SeenBeforeExtend(init: seq<Match>, m: Match, a: string, b: string)
    requires SeenBefore(init, a, b)
    ensures SeenBefore(init + [m], a, b)
  {
    var p :| 0 <= p < |init| && CarriesId(init[p], a) && forall q :: 0 <= q <= p ==> !CarriesId(init[q], b);
    assert (init + [m])[p] == init[p];
    forall q | 0 <= q <= p
      ensures !CarriesId((init + [m])[q], b)
    {
      assert (init + [m])[q] == init[q];
    }
  }

  /**
   * The listing is in first-seen order: of two listed ids, the earlier one
   * occurs in the matches before any occurrence of the later one.
   */
  lemma {:induction false} FirstSeenIdsOrder(matches: seq<Match>)
    ensures forall i, j :: 0 <= i < j < |FirstSeenIds(matches)| ==>
      SeenBefore(matches, FirstSeenIds(matches)[i], FirstSeenIds(matches)[j])
    decreases |matches|
  {
    if |matches| > 0 {
      var init, last := matches[..|matches| - 1], matches[|matches| - 1];
      var seen, ids := FirstSeenIds(init), FirstSeenIds(matches);
      assert matches == init + [last];
      FirstSeenIdsOrder(init);
      FirstSeenIdsMembers(init);
      forall i, j | 0 <= i < j < |ids|
        ensures SeenBefore(matches, ids[i], ids[j])
      {
        if j < |seen| {
          assert ids[i] == seen[i] && ids[j] == seen[j];
          SeenBeforeExtend(init, last, seen[i], seen[j]);
        } else {
          var x := last.documentId.value;
          assert ids == seen + [x] && x !in seen;
          assert ids[i] == seen[i] && ids[j] == x;
          assert seen[i] in seen;
          var p :| 0 <= p < |init| && CarriesId(init[p], seen[i]);
          forall q | 0 <= q <= p
            ensures !CarriesId(matches[q], x)
          {
            assert matches[q] == init[q];
          }
          assert matches[p] == init[p];
        }
      }
    }
  }

  /**
   * A field of a record comes from the earliest match of that document and
   * type: no match before it has both, and its "text" (or the default when
   * it has none) is the field; with no such match the field is the default.
   */
  lemma FieldTextFirst(matches: seq<Match>, id: string, kind: string, default: string)
    ensures (forall k :: 0 <= k < |matches| ==> !Hit(matches[k], id, kind))
      ==> FieldText(matches, id, kind, default) == default
    ensures forall p ::
      (0 <= p < |matches| && Hit(matches[p], id, kind)
       && (forall k :: 0 <= k < p ==> !Hit(matches[k], id, kind)))
      ==> FieldText(matches, id, kind, default) == (if matches[p].text.Some? then matches[p].text.value else default)
  {
    if forall k :: 0 <= k < |matches| ==> !Hit(matches[k], id, kind) {
      FirstMatchNone(matches, id, kind);
    }
    forall p | 0 <= p < |matches| && Hit(matches[p], id, kind) && (forall k :: 0 <= k < p ==> !Hit(matches[k], id, kind))
      ensures FieldText(matches, id, kind, default) == (if matches[p].text.Some? then matches[p].text.value else default)
    {
      FirstMatchAt(matches, id, kind, p);
    }
  }

  lemma {:induction false} FirstMatchAt(matches: seq<Match>, id: string, kind: string, p: nat)
    requires p < |matches| && Hit(matches[p], id, kind)
    requires forall k :: 0 <= k < p ==> !Hit(matches[k], id, kind)
    ensures FirstMatch(matches, id, kind) == Some(matches[p])
    decreases p
  {
    if p > 0 {
      assert !Hit(matches[0], id, kind);
      forall k | 0 <= k < p - 1
        ensures !Hit(matches[1..][k], id, kind)
      {
        assert matches[1..][k] == matches[k + 1];
      }
      FirstMatchAt(matches[1..], id, kind, p - 1);
    }
  }

  lemma {:induction false} FirstMatchNone(matches: seq<Match>, id: string, kind: string)
    requires forall k :: 0 <= k < |matches| ==> !Hit(matches[k], id, kind)
    ensures FirstMatch(matches, id, kind) == None
    decreases |matches|
  {
    if |matches| > 0 {
      assert !Hit(matches[0], id, kind);
      forall k | 0 <= k < |matches| - 1
        ensures !Hit(matches[1..][k], id, kind)
      {
        assert matches[1..][k] == matches[k + 1];
      }
      FirstMatchNone(matches[1..], id, kind);
    }
  }

  /** The match the index holds for an entry's metadata. */
  function MatchOf(e: Indexer.VectorEntry): Match {
    Match(Some(e.metadata.documentId), Some(e.metadata.kind), Some(e.metadata.text))
  }

  function MatchesOf(entries: seq<Indexer.VectorEntry>): (r: seq<Match>)
    ensures |r| == |entries|
  {
    seq(|entries|, k requires 0 <= k < |entries| => MatchOf(entries[k]))
  }

  /** Matches that all carry one truthy id list that id once. */
  lemma {:induction false} FirstSeenIdsOfOne(matches: seq<Match>, id: string)
    requires |matches| > 0 && id != ""
    requires forall k :: 0 <= k < |matches| ==> matches[k].documentId == Some(id)
    ensures FirstSeenIds(matches) == [id]
    decreases |matches|
  {
    var init := matches[..|matches| - 1];
    if |init| > 0 {
      FirstSeenIdsOfOne(init, id);
    }
  }

  /** The matches of one document's entries: its own id everywhere, its four fields first. */
  lemma MatchesOfDocument(d: Indexer.Document, encode: Indexer.Encoder)
    requires d.id != ""
    ensures var ms := MatchesOf(Indexer.DocumentEntries(d, encode));
      |ms| >= 4
      && (forall k :: 0 <= k < |ms| ==> ms[k].documentId == Some(d.id))
      && ms[0] == Match(Some(d.id), Some("title"), Some(d.title))
      && ms[1] == Match(Some(d.id), Some("authors"), Some(d.authors))
      && ms[2] == Match(Some(d.id), Some("organizations"), Some(d.organizations))
      && ms[3] == Match(Some(d.id), Some("emails"), Some(d.emails))
  {
    Indexer.DocumentEntriesShape(d, encode);
    Indexer.DocumentEntriesWellKeyed(d, encode);
  }

  /**
   * The listing recovers what the upload returned: querying back the
   * entries of one indexed document, in the order of indexing, lists
   * exactly that document with the five fields returned on upload.
   */
  lemma ListingRecoversUpload(d: Indexer.Document, encode: Indexer.Encoder)
    requires d.id != ""
    ensures Listing(MatchesOf(Indexer.DocumentEntries(d, encode))) == [MetadataOf(d)]
  {
    MatchesOfDocument(d, encode);
    ListingOfOneDocument(MatchesOf(Indexer.DocumentEntries(d, encode)), d);
  }

  /** Matches that all carry the id of `d`, led by its four fields, list exactly `d`'s record. */
  lemma ListingOfOneDocument(ms: seq<Match>, d: Indexer.Document)
    requires d.id != "" && |ms| >= 4
    requires forall k :: 0 <= k < |ms| ==> ms[k].documentId == Some(d.id)
    requires ms[0] == Match(Some(d.id), Some("title"), Some(d.title))
    requires ms[1] == Match(Some(d.id), Some("authors"), Some(d.authors))
    requires ms[2] == Match(Some(d.id), Some("organizations"), Some(d.organizations))
    requires ms[3] == Match(Some(d.id), Some("emails"), Some(d.emails))
    ensures Listing(ms) == [MetadataOf(d)]
  {
    FirstSeenIdsOfOne(ms, d.id);
    FirstMatchAt(ms, d.id, "title", 0);
    FirstMatchAt(ms, d.id, "authors", 1);
    FirstMatchAt(ms, d.id, "organizations", 2);
    FirstMatchAt(ms, d.id, "emails", 3);
    assert Record(ms, d.id) == MetadataOf(d);
  }
}
