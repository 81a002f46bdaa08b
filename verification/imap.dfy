/** An abstract IMAP server holding one selected mailbox and the other
    folders of the account, with the commands the ingestion loop issues, as
    RFC 3501 defines them: UID SEARCH UNSEEN (section 6.4.4), UID FETCH
    (6.4.5), UID STORE +FLAGS (6.4.6), UID COPY (6.4.7), LIST (6.3.8) and
    CREATE (6.3.3), in their UID forms (6.4.8). */
module Imap {
  import opened Base
  import opened SearchResponse

  newtype byte = x: int | 0 <= x < 256
  type Bytes = seq<byte>

  /** A UID as it travels in commands and replies: its decimal text. */
  type Uid = string

  datatype Flag = Seen | Answered | Flagged | Deleted | Draft | Keyword(atom: string)

  /** One message held by the server: its flags and its RFC 822 text. */
  datatype Stored = Stored(flags: set<Flag>, content: Bytes)

  /** The selected mailbox (its UIDs in mailbox order and the message of each
      UID) and the other folders, each with the messages copied into it. */
  datatype ServerState = ServerState(
    order: seq<Uid>,
    messages: map<Uid, Stored>,
    folders: map<string, seq<Stored>>)

  /** UIDs are distinct numbers, and the order lists exactly the messages. */
  ghost predicate Valid(s: ServerState) {
    && (forall i, j :: 0 <= i < j < |s.order| ==> s.order[i] != s.order[j])
    && (forall u :: u in s.messages <==> u in s.order)
    && (forall i :: 0 <= i < |s.order| ==> IsNumber(s.order[i]))
  }

  /** The data item a FETCH asks for: `RFC822` (the same as `BODY[]`, which
      sets \Seen) or `BODY.PEEK[]` (which does not). */
  datatype FetchItem = Rfc822 | BodyPeek

  /** The data of a UID FETCH: no data line when no message has that UID
      (the client library then reports the list `[None]`), or the text. */
  datatype FetchData = NoData | Body(content: Bytes)

  /** The first entry of a LIST reply: no folder matched (the client library
      reports `None`), or the matching folder. */
  datatype ListEntry = NoFolder | FolderLine(name: string)

  /** The commands a client can send here. */
  datatype Call =
    | SearchCmd
    | FetchCmd(uid: Uid, item: FetchItem)
    | StoreCmd(uid: Uid, flag: Flag)
    | CopyCmd(uid: Uid, dest: string)
    | ListCmd(pattern: string)
    | CreateCmd(name: string)

  function UnseenAmong(order: seq<Uid>, messages: map<Uid, Stored>): (r: seq<Uid>)
    ensures forall u :: u in r <==> u in order && u in messages && Seen !in messages[u].flags
    decreases |order|
  {
    if order == [] then []
    else
      var rest := UnseenAmong(order[1..], messages);
      assert forall u :: u in order <==> u == order[0] || u in order[1..];
      if order[0] in messages && Seen !in messages[order[0]].flags then [order[0]] + rest else rest
  }

  /** SEARCH UNSEEN: the UIDs of the messages without \Seen, in mailbox order. */
  function UnseenUids(s: ServerState): (r: seq<Uid>)
    ensures forall u :: u in r <==> u in s.order && u in s.messages && Seen !in s.messages[u].flags
  {
    UnseenAmong(s.order, s.messages)
  }

  /** The first line of the SEARCH reply: the UIDs separated by single spaces. */
  function SearchUnseenLine(s: ServerState): string {
    Join(UnseenUids(s))
  }

  /** The data a UID FETCH of `uid` returns. */
  function FetchResult(s: ServerState, uid: Uid): (d: FetchData)
    ensures d.NoData? <==> uid !in s.messages
    ensures d.Body? ==> d.content == s.messages[uid].content
  {
    if uid in s.messages then Body(s.messages[uid].content) else NoData
  }

  /** STORE +FLAGS: adds `flag` to the message with that UID, if there is one;
      nothing else changes. */
  function AddFlag(s: ServerState, uid: Uid, flag: Flag): (t: ServerState)
    ensures t.order == s.order && t.folders == s.folders && t.messages.Keys == s.messages.Keys
    ensures forall v :: v in s.messages ==> t.messages[v].content == s.messages[v].content
    ensures forall v :: v in s.messages ==>
      t.messages[v].flags == if v == uid then s.messages[v].flags + {flag} else s.messages[v].flags
  {
    if uid in s.messages then
      s.(messages := s.messages[uid := s.messages[uid].(flags := s.messages[uid].flags + {flag})])
    else s
  }

  /** The state after a UID FETCH: fetching `RFC822` sets \Seen, fetching
      `BODY.PEEK[]` changes nothing. */
  function AfterFetch(s: ServerState, uid: Uid, item: FetchItem): (t: ServerState)
    ensures item == BodyPeek ==> t == s
    ensures item == Rfc822 ==> t == AddFlag(s, uid, Seen)
  {
    if item == Rfc822 then AddFlag(s, uid, Seen) else s
  }

  /** UID COPY: appends the message to the destination folder. A missing UID
      copies nothing; a missing folder is refused (a NO reply) and nothing
      changes. */
  function AfterCopy(s: ServerState, uid: Uid, dest: string): (t: ServerState)
    ensures t.order == s.order && t.messages == s.messages && t.folders.Keys == s.folders.Keys
    ensures forall f :: f in s.folders && f != dest ==> t.folders[f] == s.folders[f]
    ensures dest in s.folders ==>
      t.folders[dest] == s.folders[dest] + (if uid in s.messages then [s.messages[uid]] else [])
  {
    if uid in s.messages && dest in s.folders then
      s.(folders := s.folders[dest := s.folders[dest] + [s.messages[uid]]])
    else s
  }

  /** LIST with a folder name as pattern: the folder's line when it exists,
      otherwise the client library's lone `None`. */
  function ListResponse(s: ServerState, pattern: string): (r: seq<ListEntry>)
    ensures |r| == 1
    ensures r[0] == NoFolder <==> pattern !in s.folders
  {
    if pattern in s.folders then [FolderLine(pattern)] else [NoFolder]
  }

  /** CREATE: adds an empty folder; an existing name is refused (NO) and
      nothing changes. */
  function AfterCreate(s: ServerState, name: string): (t: ServerState)
    ensures t.order == s.order && t.messages == s.messages
    ensures t.folders.Keys == s.folders.Keys + {name}
    ensures forall f :: f in s.folders ==> t.folders[f] == s.folders[f]
    ensures name !in s.folders ==> t.folders[name] == []
  {
    if name in s.folders then s else s.(folders := s.folders[name := []])
  }

  /** The server as the client sees it through one connection. The calls in
      `faults` raise an exception on the client side and change nothing on
      the server. */
  class ImapServer {
    var order: seq<Uid>
    var messages: map<Uid, Stored>
    var folders: map<string, seq<Stored>>
    const faults: set<Call>

    function State(): ServerState
      reads this
    {
      ServerState(order, messages, folders)
    }

    constructor (s: ServerState, faults: set<Call>)
      ensures State() == s && this.faults == faults
    {
      order, messages, folders := s.order, s.messages, s.folders;
      this.faults := faults;
    }

    method UidSearchUnseen() returns (r: Reply<string>)
      ensures r == if SearchCmd in faults then Raised else Returned(SearchUnseenLine(State()))
    {
      if SearchCmd in faults {
        return Raised;
      }
      r := Returned(SearchUnseenLine(State()));
    }

    method UidFetch(uid: Uid, item: FetchItem) returns (r: Reply<FetchData>)
      modifies this
      ensures FetchCmd(uid, item) in faults ==> r == Raised && State() == old(State())
      ensures FetchCmd(uid, item) !in faults ==>
        r == Returned(FetchResult(old(State()), uid)) && State() == AfterFetch(old(State()), uid, item)
    {
      if FetchCmd(uid, item) in faults {
        return Raised;
      }
      if uid in messages {
        r := Returned(Body(messages[uid].content));
        if item == Rfc822 {
          messages := messages[uid := messages[uid].(flags := messages[uid].flags + {Seen})];
        }
      } else {
        r := Returned(NoData);
      }
    }

    method UidStore(uid: Uid, flag: Flag) returns (r: Reply<()>)
      modifies this
      ensures StoreCmd(uid, flag) in faults ==> r == Raised && State() == old(State())
      ensures StoreCmd(uid, flag) !in faults ==> r == Returned(()) && State() == AddFlag(old(State()), uid, flag)
    {
      if StoreCmd(uid, flag) in faults {
        return Raised;
      }
      if uid in messages {
        messages := messages[uid := messages[uid].(flags := messages[uid].flags + {flag})];
      }
      r := Returned(());
    }

    method UidCopy(uid: Uid, dest: string) returns (r: Reply<()>)
      modifies this
      ensures CopyCmd(uid, dest) in faults ==> r == Raised && State() == old(State())
      ensures CopyCmd(uid, dest) !in faults ==> r == Returned(()) && State() == AfterCopy(old(State()), uid, dest)
    {
      if CopyCmd(uid, dest) in faults {
        return Raised;
      }
      if uid in messages && dest in folders {
        folders := folders[dest := folders[dest] + [messages[uid]]];
      }
      r := Returned(());
    }

    method List(pattern: string) returns (r: Reply<seq<ListEntry>>)
      ensures r == if ListCmd(pattern) in faults then Raised else Returned(ListResponse(State(), pattern))
    {
      if ListCmd(pattern) in faults {
        return Raised;
      }
      r := Returned(if pattern in folders then [FolderLine(pattern)] else [NoFolder]);
    }

    method Create(name: string) returns (r: Reply<()>)
      modifies this
      ensures CreateCmd(name) in faults ==> r == Raised && State() == old(State())
      ensures CreateCmd(name) !in faults ==> r == Returned(()) && State() == AfterCreate(old(State()), name)
    {
      if CreateCmd(name) in faults {
        return Raised;
      }
      if name !in folders {
        folders := folders[name := []];
      }
      r := Returned(());
    }
  }
}
