/** Pairing the questions an assistant asked with the answers the operator gave, in one pass over a
    session's records. */
module QuestionMatching {
  import opened Options

  /** A content block: a question set, a tool result, or anything else. */
  datatype Block = Ask(id: string, questions: seq<string>) | Result(id: string, answers: string) | OtherBlock

  datatype Role = Assistant | User | OtherRole

  /** `content` is missing when it is not a list of blocks. */
  datatype Record = Record(role: Role, sidechain: bool, stamp: string, content: Option<seq<Block>>)

  /** An asked question set, with where and when it was asked. */
  datatype Asked = Asked(record: nat, stamp: string, questions: seq<string>)

  datatype Event = Event(asked: Asked, answerStamp: string, answers: string)

  /** What matching looks at: valid asks of assistant records and results of user records, neither
      from a sidechain. */
  datatype Item = Question(id: string, asked: Asked) | Answer(id: string, stamp: string, answers: string)

  function ItemOf(records: seq<Record>, r: nat, block: Block): Option<Item>
    requires r < |records|
  {
    var record := records[r];
    if record.sidechain then None
    else if record.role.Assistant? && block.Ask? && block.id != "" && block.questions != []
    then Some(Question(block.id, Asked(r, record.stamp, block.questions)))
    else if record.role.User? && block.Result? then Some(Answer(block.id, record.stamp, block.answers))
    else None
  }

  function BlockItems(records: seq<Record>, r: nat, blocks: seq<Block>): seq<Item>
    requires r < |records|
  {
    if blocks == [] then []
    else
      var n := |blocks| - 1;
      var item := ItemOf(records, r, blocks[n]);
      BlockItems(records, r, blocks[..n]) + (if item.Some? then [item.value] else [])
  }

  /** The items of the first `n` records, in order. */
  function Stream(records: seq<Record>, n: nat): seq<Item>
    requires n <= |records|
  {
    if n == 0 then []
    else Stream(records, n - 1)
         + (if records[n - 1].content.Some? then BlockItems(records, n - 1, records[n - 1].content.value) else [])
  }

  // ----- the specification: look back from each answer -----

  predicate Concerns(item: Item, id: string) {
    item.id == id
  }

  /** The nearest earlier item with this id, if it is a question. */
  function OpenQuestion(stream: seq<Item>, k: nat, id: string): Option<nat>
    requires k <= |stream|
  {
    if k == 0 then None
    else if !Concerns(stream[k - 1], id) then OpenQuestion(stream, k - 1, id)
    else if stream[k - 1].Question? then Some(k - 1) else None
  }

  function Events(stream: seq<Item>, n: nat): seq<Event>
    requires n <= |stream|
  {
    if n == 0 then []
    else Events(stream, n - 1) + EventAt(stream, n - 1)
  }

  /** The event an item produces: an answer with an open question. */
  function EventAt(stream: seq<Item>, k: nat): seq<Event>
    requires k < |stream|
  {
    if stream[k].Question? then []
    else match OpenQuestion(stream, k, stream[k].id)
         case None => []
         case Some(j) =>
           QuestionFound(stream, k, stream[k].id, j);
           [Event(stream[j].asked, stream[k].stamp, stream[k].answers)]
  }

  lemma {:induction false} QuestionFound(stream: seq<Item>, k: nat, id: string, j: nat)
    requires k <= |stream| && OpenQuestion(stream, k, id) == Some(j)
    ensures j < k && stream[j].Question? && stream[j].id == id
    ensures forall m :: j < m < k ==> !Concerns(stream[m], id)
  {
    if k > 0 && !Concerns(stream[k - 1], id) {
      QuestionFound(stream, k - 1, id, j);
    }
  }

  lemma {:induction false} QuestionMissing(stream: seq<Item>, k: nat, id: string)
    requires k <= |stream| && OpenQuestion(stream, k, id) == None
    ensures forall j :: 0 <= j < k && stream[j].Question? && stream[j].id == id ==>
              exists m :: j < m < k && stream[m].Answer? && stream[m].id == id
  {
    if k > 0 {
      if !Concerns(stream[k - 1], id) {
        QuestionMissing(stream, k - 1, id);
      } else {
        assert stream[k - 1].Answer? && stream[k - 1].id == id;
      }
    }
  }

  /** An answer produces an event exactly when an earlier valid ask with its id has had no answer in
      between. */
  lemma {:induction false} AnsweredIff(stream: seq<Item>, k: nat)
    requires k < |stream| && stream[k].Answer?
    ensures EventAt(stream, k) != [] <==>
              exists j :: 0 <= j < k && stream[j].Question? && stream[j].id == stream[k].id
                          && forall m :: j < m < k ==> !(stream[m].Answer? && stream[m].id == stream[k].id)
  {
    var id := stream[k].id;
    if OpenQuestion(stream, k, id).Some? {
      QuestionFound(stream, k, id, OpenQuestion(stream, k, id).value);
    } else {
      QuestionMissing(stream, k, id);
    }
  }

  /** No ask is answered twice. */
  lemma {:induction false} AnsweredOnce(stream: seq<Item>, k: nat, k': nat, j: nat)
    requires k < k' < |stream| && stream[k].Answer? && stream[k'].Answer?
    requires OpenQuestion(stream, k, stream[k].id) == Some(j)
    ensures OpenQuestion(stream, k', stream[k'].id) != Some(j)
  {
    QuestionFound(stream, k, stream[k].id, j);
    if OpenQuestion(stream, k', stream[k'].id) == Some(j) {
      QuestionFound(stream, k', stream[k'].id, j);
    }
  }

  // ----- the one-pass algorithm -----

  type Pending = map<string, Asked>

  /** The dictionary holds exactly the open questions. */
  ghost predicate PendingMatches(pending: Pending, stream: seq<Item>) {
    forall id :: if OpenQuestion(stream, |stream|, id).Some?
                 then id in pending && OpenQuestion(stream, |stream|, id).value < |stream|
                      && stream[OpenQuestion(stream, |stream|, id).value].Question?
                      && pending[id] == stream[OpenQuestion(stream, |stream|, id).value].asked
                 else id !in pending
  }

  lemma {:induction false} OpenInLonger(stream: seq<Item>, item: Item, k: nat, id: string)
    requires k <= |stream|
    ensures OpenQuestion(stream + [item], k, id) == OpenQuestion(stream, k, id)
  {
    if k > 0 {
      OpenInLonger(stream, item, k - 1, id);
    }
  }

  lemma {:induction false} EventsInLonger(stream: seq<Item>, item: Item, n: nat)
    requires n <= |stream|
    ensures Events(stream + [item], n) == Events(stream, n)
  {
    if n > 0 {
      EventsInLonger(stream, item, n - 1);
      OpenInLonger(stream, item, n - 1, stream[n - 1].id);
      if stream[n - 1].Answer? && OpenQuestion(stream, n - 1, stream[n - 1].id).Some? {
        QuestionFound(stream, n - 1, stream[n - 1].id, OpenQuestion(stream, n - 1, stream[n - 1].id).value);
      }
    }
  }

  /** Processes one item. */
  method Take(pending0: Pending, events0: seq<Event>, ghost stream: seq<Item>, item: Item)
    returns (pending: Pending, events: seq<Event>)
    requires PendingMatches(pending0, stream) && events0 == Events(stream, |stream|)
    ensures PendingMatches(pending, stream + [item]) && events == Events(stream + [item], |stream + [item]|)
  {
    pending, events := pending0, events0;
    EventsInLonger(stream, item, |stream|);
    forall id
      ensures OpenQuestion(stream + [item], |stream|, id) == OpenQuestion(stream, |stream|, id)
    {
      OpenInLonger(stream, item, |stream|, id);
    }
    if item.Question? {
      pending := pending0[item.id := item.asked];
    } else if item.id in pending0 {
      events := events0 + [Event(pending0[item.id], item.stamp, item.answers)];
      pending := pending0 - {item.id};
    }
  }

  lemma {:induction false} NextBlock(records: seq<Record>, r: nat, blocks: seq<Block>, b: nat)
    requires r < |records| && b < |blocks|
    ensures var item := ItemOf(records, r, blocks[b]);
            BlockItems(records, r, blocks[..b + 1])
            == BlockItems(records, r, blocks[..b]) + (if item.Some? then [item.value] else [])
  {
    assert blocks[..b + 1][..b] == blocks[..b];
  }

  /** The blocks of one record. */
  method TakeRecord(records: seq<Record>, r: nat, blocks: seq<Block>, pending0: Pending, events0: seq<Event>,
                    ghost before: seq<Item>)
    returns (pending: Pending, events: seq<Event>)
    requires r < |records|
    requires PendingMatches(pending0, before) && events0 == Events(before, |before|)
    ensures PendingMatches(pending, before + BlockItems(records, r, blocks))
    ensures var stream := before + BlockItems(records, r, blocks); events == Events(stream, |stream|)
  {
    ghost var stream := before;
    pending, events := pending0, events0;
    for b := 0 to |blocks|
      invariant stream == before + BlockItems(records, r, blocks[..b])
      invariant PendingMatches(pending, stream) && events == Events(stream, |stream|)
    {
      var item := ItemOf(records, r, blocks[b]);
      NextBlock(records, r, blocks, b);
      if item.Some? {
        pending, events := Take(pending, events, stream, item.value);
        stream := stream + [item.value];
      }
    }
    assert blocks[..|blocks|] == blocks;
  }

  /** The whole scan: a question replaces an open one with its id, an answer closes it. */
  method Collect(records: seq<Record>) returns (events: seq<Event>)
    ensures events == Events(Stream(records, |records|), |Stream(records, |records|)|)
  {
    var pending: Pending := map[];
    events := [];
    ghost var stream: seq<Item> := [];
    for r := 0 to |records|
      invariant stream == Stream(records, r)
      invariant PendingMatches(pending, stream) && events == Events(stream, |stream|)
    {
      if records[r].content.Some? {
        pending, events := TakeRecord(records, r, records[r].content.value, pending, events, stream);
        stream := stream + BlockItems(records, r, records[r].content.value);
      }
    }
  }

  /** Sidechain records contribute nothing, whatever they contain. */
  lemma {:induction false} SidechainsIgnored(records: seq<Record>, r: nat, blocks: seq<Block>)
    requires r < |records| && records[r].sidechain
    ensures BlockItems(records, r, blocks) == []
  {
    if blocks != [] {
      SidechainsIgnored(records, r, blocks[..|blocks| - 1]);
    }
  }

  /** Two records of one block each give an event exactly when the first is an assistant's valid ask, the
      second a user's result for it, and neither is a sidechain; the event then carries the ask's place,
      stamp and questions, and the result's stamp and answers. */
  lemma {:induction false} AskAndAnswer(first: Record, second: Record, ask: Block, result: Block)
    requires first.content == Some([ask]) && second.content == Some([result])
    ensures var stream := Stream([first, second], 2);
            Events(stream, |stream|)
            == if && first.role == Assistant && !first.sidechain && ask.Ask? && ask.id != "" && ask.questions != []
                  && second.role == User && !second.sidechain && result.Result? && result.id == ask.id
               then [Event(Asked(0, first.stamp, ask.questions), second.stamp, result.answers)]
               else []
  {
    StreamOfTwo([first, second], ask, result);
    FewItems(Stream([first, second], 2));
  }

  lemma {:induction false} StreamOfTwo(records: seq<Record>, ask: Block, result: Block)
    requires |records| == 2 && records[0].content == Some([ask]) && records[1].content == Some([result])
    ensures var a, b := ItemOf(records, 0, ask), ItemOf(records, 1, result);
            Stream(records, 2) == (if a.Some? then [a.value] else []) + (if b.Some? then [b.value] else [])
  {
    OneBlock(records, 0, ask);
    OneBlock(records, 1, result);
    assert Stream(records, 1) == Stream(records, 0) + BlockItems(records, 0, [ask]);
  }

  lemma {:induction false} FewItems(stream: seq<Item>)
    requires |stream| <= 2
    ensures Events(stream, |stream|)
            == if |stream| == 2 && stream[0].Question? && stream[1].Answer? && stream[0].id == stream[1].id
               then [Event(stream[0].asked, stream[1].stamp, stream[1].answers)] else []
  {
    if |stream| >= 1 {
      assert OpenQuestion(stream, 0, stream[0].id) == None;
      assert Events(stream, 1) == Events(stream, 0) + EventAt(stream, 0);
    }
    if |stream| == 2 {
      assert OpenQuestion(stream, 0, stream[1].id) == None;
      assert Events(stream, 2) == Events(stream, 1) + EventAt(stream, 1);
    }
  }

  lemma {:induction false} OneBlock(records: seq<Record>, r: nat, block: Block)
    requires r < |records|
    ensures BlockItems(records, r, [block])
            == if ItemOf(records, r, block).Some? then [ItemOf(records, r, block).value] else []
  {
    assert [block][..0] == [];
  }
}
