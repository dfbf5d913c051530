/** What each control word stands for, and the proof that the command table says exactly that. */
module CommandWords {
  import opened Options
  import opened Dispatch

  /** The action a word stands for. */
  function ActionOf(word: string): Option<Handler> {
    match word
    case "SYST" => Some(SystAction) case "QUIT" => Some(QuitAction) case "AUTH" => Some(AuthAction)
    case "PBSZ" => Some(PbszAction) case "PROT" => Some(ProtAction) case "NOOP" => Some(NoopAction)
    case "FEAT" => Some(FeatAction) case "TYPE" => Some(TypeAction) case "EPSV" => Some(EpsvAction)
    case "PASV" => Some(PasvAction) case "NLST" => Some(NlstAction) case "LIST" => Some(ListAction)
    case "SIZE" => Some(SizeAction) case "RETR" => Some(RetrAction) case "STOR" => Some(StorAction)
    case "MDTM" => Some(MdtmAction) case "CWD" => Some(CwdAction) case "PWD" => Some(PwdAction)
    case "ABOR" => Some(AborAction) case "MKD" => Some(MkdAction) case "RMD" => Some(RmdAction)
    case "DELE" => Some(DeleAction) case "USER" => Some(UserAction) case "PASS" => Some(PassAction)
    case _ => None
  }

  function WordOf(h: Handler): string {
    match h
    case SystAction => "SYST"
    case QuitAction => "QUIT"
    case AuthAction => "AUTH"
    case PbszAction => "PBSZ"
    case ProtAction => "PROT"
    case NoopAction => "NOOP"
    case FeatAction => "FEAT"
    case TypeAction => "TYPE"
    case EpsvAction => "EPSV"
    case PasvAction => "PASV"
    case NlstAction => "NLST"
    case ListAction => "LIST"
    case SizeAction => "SIZE"
    case RetrAction => "RETR"
    case StorAction => "STOR"
    case MdtmAction => "MDTM"
    case CwdAction => "CWD"
    case PwdAction => "PWD"
    case AborAction => "ABOR"
    case MkdAction => "MKD"
    case RmdAction => "RMD"
    case DeleAction => "DELE"
    case UserAction => "USER"
    case PassAction => "PASS"
    case _ => ""
  }

  lemma ActionWord(word: string)
    ensures ActionOf(word).Some? ==> WordOf(ActionOf(word).value) == word != ""
  {
  }

  /** Handlers that run whether or not the client is logged in. */
  predicate OpenHandler(h: Handler) {
    h in {SystAction, QuitAction, AuthAction, PbszAction, ProtAction, NoopAction, FeatAction, InvalidAction}
  }

  predicate LoginHandler(h: Handler) {
    h == UserAction || h == PassAction
  }

  /** What a word should run: its action, if the login state is the one that action is for. */
  function Meant(word: string, authenticated: bool): Handler {
    match ActionOf(word)
    case None => InvalidAction
    case Some(h) =>
      if OpenHandler(h) || LoginHandler(h) != authenticated then h
      else if authenticated then AlreadyAuthenticated
      else NonAuthenticated
  }

  /** The action a row is about. */
  function OwnAction(row: Row): Handler {
    if row.callbacks.authenticated == AlreadyAuthenticated then row.callbacks.nonAuthenticated
    else row.callbacks.authenticated
  }

  predicate RowMeant(i: nat)
    requires i < |COMMAND_ACTIONS|
  {
    var row := COMMAND_ACTIONS[i];
    && row.callbacks.authenticated == Meant(row.action, true)
    && row.callbacks.nonAuthenticated == Meant(row.action, false)
    && row.action == WordOf(OwnAction(row))
  }

  lemma FirstRowsMeant()
    ensures |COMMAND_ACTIONS| == 24
    ensures forall i :: 0 <= i < 4 ==> RowMeant(i)
  {
  }

  lemma SecondRowsMeant()
    ensures |COMMAND_ACTIONS| == 24
    ensures forall i :: 4 <= i < 8 ==> RowMeant(i)
  {
  }

  lemma ThirdRowsMeant()
    ensures |COMMAND_ACTIONS| == 24
    ensures forall i :: 8 <= i < 12 ==> RowMeant(i)
  {
  }

  lemma FourthRowsMeant()
    ensures |COMMAND_ACTIONS| == 24
    ensures forall i :: 12 <= i < 16 ==> RowMeant(i)
  {
  }

  lemma FifthRowsMeant()
    ensures |COMMAND_ACTIONS| == 24
    ensures forall i :: 16 <= i < 20 ==> RowMeant(i)
  {
  }

  lemma SixthRowsMeant()
    ensures |COMMAND_ACTIONS| == 24
    ensures forall i :: 20 <= i < 24 ==> RowMeant(i)
  {
  }

  lemma RowsMeant()
    ensures |COMMAND_ACTIONS| == 24
    ensures forall i :: 0 <= i < 24 ==> RowMeant(i)
  {
    hide COMMAND_ACTIONS, RowMeant;
    FirstRowsMeant();
    SecondRowsMeant();
    ThirdRowsMeant();
    FourthRowsMeant();
    FifthRowsMeant();
    SixthRowsMeant();
  }

  /** The position of an action's row. */
  function RowIndex(h: Handler): nat {
    match h
    case SystAction => 0
    case QuitAction => 1
    case AuthAction => 2
    case PbszAction => 3
    case ProtAction => 4
    case NoopAction => 5
    case FeatAction => 6
    case TypeAction => 7
    case EpsvAction => 8
    case PasvAction => 9
    case NlstAction => 10
    case ListAction => 11
    case SizeAction => 12
    case RetrAction => 13
    case StorAction => 14
    case MdtmAction => 15
    case CwdAction => 16
    case PwdAction => 17
    case AborAction => 18
    case MkdAction => 19
    case RmdAction => 20
    case DeleAction => 21
    case UserAction => 22
    case PassAction => 23
    case _ => 24
  }

  lemma FirstOwnRows(h: Handler)
    requires RowIndex(h) < 12
    ensures |COMMAND_ACTIONS| == 24 && OwnAction(COMMAND_ACTIONS[RowIndex(h)]) == h
  {
  }

  lemma LastOwnRows(h: Handler)
    requires 12 <= RowIndex(h) < 24
    ensures |COMMAND_ACTIONS| == 24 && OwnAction(COMMAND_ACTIONS[RowIndex(h)]) == h
  {
  }

  lemma WordsAreIndexed(h: Handler)
    requires WordOf(h) != ""
    ensures RowIndex(h) < 24
  {
  }

  lemma WordHasRow(word: string)
    requires ActionOf(word).Some?
    ensures exists i :: 0 <= i < |COMMAND_ACTIONS| && COMMAND_ACTIONS[i].action == word
  {
    hide ActionOf, WordOf, COMMAND_ACTIONS, RowIndex, OwnAction, Meant;
    ActionWord(word);
    var h := ActionOf(word).value;
    WordsAreIndexed(h);
    if RowIndex(h) < 12 {
      FirstOwnRows(h);
    } else {
      LastOwnRows(h);
    }
    RowsMeant();
    assert RowMeant(RowIndex(h));
  }

  lemma RowSelected(i: nat, authenticated: bool)
    requires i < |COMMAND_ACTIONS|
    ensures Select(COMMAND_ACTIONS[i].action, authenticated)
         == Chosen(Some(COMMAND_ACTIONS[i].callbacks), authenticated)
  {
    hide COMMAND_ACTIONS, Scan;
    TableNamesDistinct();
    ScanIsFirst(COMMAND_ACTIONS, i);
  }

  lemma UnknownMeant(word: string, authenticated: bool)
    requires forall i :: 0 <= i < |COMMAND_ACTIONS| ==> COMMAND_ACTIONS[i].action != word
    ensures Meant(word, authenticated) == InvalidAction
  {
    hide COMMAND_ACTIONS, ActionOf;
    if ActionOf(word).Some? {
      WordHasRow(word);
    }
  }

  /** Every word runs exactly the action it stands for, or says that the client has to log in first or is
      logged in already; every other word is unknown. */
  lemma SelectExactly(word: string, authenticated: bool)
    ensures Select(word, authenticated) == Meant(word, authenticated)
  {
    hide COMMAND_ACTIONS, Scan, ActionOf, Meant;
    RowsMeant();
    if i :| 0 <= i < |COMMAND_ACTIONS| && COMMAND_ACTIONS[i].action == word {
      RowSelected(i, authenticated);
      assert RowMeant(i);
    } else {
      ScanMisses(COMMAND_ACTIONS, word);
      UnknownMeant(word, authenticated);
    }
  }
}
