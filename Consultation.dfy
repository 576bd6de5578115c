/** The health consultation screen: a chat transcript with an assistant that
    answers from a fixed table, the keyword classification of each question,
    the four predefined questions, liking and deleting messages. */
module HealthConsultation {
  import Lists
  import Text
  import opened Shared

  datatype Sender = User | Ai

  datatype Category = Drug | Health | General

  /** A chat message (`interface Message`); `liked` and `category` are optional. */
  datatype Message = Message(
    id: string, text: string, sender: Sender, timestamp: int,
    liked: Option<bool>, category: Option<Category>)

  /** The assistant's greeting, the transcript's only message at the start. */
  const WelcomeText := "欢迎使用健康咨询助手！我可以为您提供药物知识、健康咨询等服务。请问有什么可以帮助您的？"

  /** The questions offered as buttons while the transcript is short. */
  const PredefinedQuestions: seq<string> := [
    "如何正确服用感冒药？",
    "高血压患者饮食需要注意什么？",
    "常见抗生素的副作用有哪些？",
    "如何缓解失眠症状？"
  ]

  /** `mockAIResponses`: the canned answer to each predefined question, keyed
      by the exact question text. */
  const Responses: map<string, string> := map[
    "如何正确服用感冒药？" :=
      "感冒药的正确服用方法取决于具体药物类型。一般来说：\n\n1. 按照说明书或医嘱的剂量和频率服用\n2. 多数感冒药建议饭后服用，以减少对胃的刺激\n3. 不要同时服用多种含有相同成分的感冒药\n4. 服用期间避免饮酒\n5. 如症状持续加重或超过3天未见好转，应及时就医\n\n请问您具体想了解哪种感冒药的服用方法？",
    "高血压患者饮食需要注意什么？" :=
      "高血压患者的饮食调整非常重要，以下是一些建议：\n\n1. 减少钠的摄入：每天盐的摄入量不超过5克\n2. 增加钾的摄入：多吃新鲜蔬菜和水果\n3. 控制脂肪摄入：选择不饱和脂肪，避免反式脂肪\n4. 适量摄入蛋白质：选择鱼类、 poultry等优质蛋白质\n5. 限制饮酒：男性每天不超过2杯，女性不超过1杯\n6. 增加膳食纤维：多吃全谷物、蔬菜和水果\n\n此外，保持健康的体重、规律运动和减少压力也对控制血压有帮助。",
    "常见抗生素的副作用有哪些？" :=
      "抗生素的副作用因药物种类而异，常见的副作用包括：\n\n1. 胃肠道反应：恶心、呕吐、腹泻、腹痛\n2. 过敏反应：皮疹、瘙痒、呼吸困难（严重时）\n3. 肝肾功能损害：长期或大剂量使用可能影响肝肾功能\n4. 菌群失调：可能导致念珠菌感染等二次感染\n5. 神经系统反应：头痛、头晕、失眠等\n\n使用抗生素时应严格遵循医嘱，不要自行增减剂量或停药。如出现严重不适，应立即就医。",
    "如何缓解失眠症状？" :=
      "缓解失眠可以尝试以下方法：\n\n1. 建立规律的睡眠时间表，每天同一时间上床和起床\n2. 创造良好的睡眠环境：保持卧室安静、黑暗和凉爽\n3. 避免睡前使用电子设备，因为蓝光会抑制褪黑素的产生\n4. 限制咖啡因和酒精的摄入，特别是下午和晚上\n5. 睡前进行放松活动，如阅读、听轻音乐或泡热水澡\n6. 适量运动，但避免在睡前3小时内进行剧烈运动\n\n如果失眠问题持续存在，建议咨询医生以获得专业帮助。"
  ]

  /** The answer to any question the table does not hold. */
  const Fallback := "感谢您的提问！我正在整理相关信息，稍后为您提供详细回答。如需更专业的医疗建议，请咨询您的医生。"

  /** Every predefined question has an answer of its own in the table. */
  lemma PredefinedAnswered()
    ensures forall q :: q in PredefinedQuestions ==> q in Responses && Reply(q) == Responses[q] != Fallback
  {
  }

  /** The reply to a (trimmed) question: its own table entry if it has one,
      the fallback otherwise. */
  function Reply(question: string): (r: string)
    ensures question in Responses ==> r == Responses[question]
    ensures question !in Responses ==> r == Fallback
  {
    if question in Responses then Responses[question] else Fallback
  }

  /** The question mentions a medicine: 药, 服用 or 副作用. */
  predicate MentionsDrug(text: string) {
    Text.Contains(text, "药") || Text.Contains(text, "服用") || Text.Contains(text, "副作用")
  }

  /** The question mentions a health topic: 血压, 失眠 or 饮食. */
  predicate MentionsHealth(text: string) {
    Text.Contains(text, "血压") || Text.Contains(text, "失眠") || Text.Contains(text, "饮食")
  }

  /** The category of a typed question: drug first, then health, otherwise general. */
  function Classify(text: string): (c: Category)
    ensures c == Drug <==> MentionsDrug(text)
    ensures c == Health <==> !MentionsDrug(text) && MentionsHealth(text)
    ensures c == General <==> !MentionsDrug(text) && !MentionsHealth(text)
  {
    if MentionsDrug(text) then Drug
    else if MentionsHealth(text) then Health
    else General
  }

  /** The category is taken from the input as typed, the message shows it
      trimmed; since no keyword starts or ends with whitespace, both give the
      same category. */
  lemma ClassifyIgnoresSurroundingWhitespace(text: string)
    ensures Classify(Text.Trim(text)) == Classify(text)
  {
    MentionsDrugTrimmed(text);
    MentionsHealthTrimmed(text);
  }

  lemma MentionsDrugTrimmed(text: string)
    ensures MentionsDrug(Text.Trim(text)) == MentionsDrug(text)
  {
    Text.ContainsTrimmed(text, "药");
    Text.ContainsTrimmed(text, "服用");
    Text.ContainsTrimmed(text, "副作用");
  }

  lemma MentionsHealthTrimmed(text: string)
    ensures MentionsHealth(Text.Trim(text)) == MentionsHealth(text)
  {
    Text.ContainsTrimmed(text, "血压");
    Text.ContainsTrimmed(text, "失眠");
    Text.ContainsTrimmed(text, "饮食");
  }

  /** The category a predefined question's answer gets as written: drug if
      the question mentions 药 or 服用, health otherwise. */
  function PredefinedCategoryAsWritten(question: string): (c: Category)
    ensures c != General
    ensures c == Drug <==> Text.Contains(question, "药") || Text.Contains(question, "服用")
  {
    if Text.Contains(question, "药") || Text.Contains(question, "服用") then Drug else Health
  }

  /** The side-effects question mentions 副作用, but neither 药 nor 服用. */
  lemma SideEffectsQuestionKeywords(q: string)
    requires q == "常见抗生素的副作用有哪些？"
    ensures !Text.Contains(q, "药") && !Text.Contains(q, "服用") && Text.Contains(q, "副作用")
  {
    Text.AbsentFirstChar(q, "药");
    Text.AbsentFirstChar(q, "服用");
    assert Text.OccursAt(q, "副作用", 6);
  }

  /** The side-effects question is filed under health when its button is
      pressed, but under drug when the same words are typed. */
  lemma PredefinedCategoryDisagrees(q: string)
    requires q == PredefinedQuestions[2]
    ensures q == "常见抗生素的副作用有哪些？"
    ensures PredefinedCategoryAsWritten(q) == Health
    ensures Classify(q) == Drug
  {
    SideEffectsQuestionKeywords(q);
  }

  /** The cold-medicine question mentions 服用. */
  lemma ColdMedicineQuestionKeywords(q: string)
    requires q == "如何正确服用感冒药？"
    ensures Text.Contains(q, "服用")
  {
    assert Text.OccursAt(q, "服用", 4);
  }

  /** The blood-pressure question mentions 血压 and no medicine keyword. */
  lemma BloodPressureQuestionKeywords(q: string)
    requires q == "高血压患者饮食需要注意什么？"
    ensures !Text.Contains(q, "药") && !Text.Contains(q, "服用") && !Text.Contains(q, "副作用")
    ensures Text.Contains(q, "血压")
  {
    assert q[1..3] == "血压";
    assert Text.OccursAt(q, "血压", 1);
    Text.AbsentFirstChar(q, "药");
    Text.AbsentFirstChar(q, "服用");
    Text.AbsentFirstChar(q, "副作用");
  }

  /** The insomnia question mentions 失眠 and no medicine keyword. */
  lemma InsomniaQuestionKeywords(q: string)
    requires q == "如何缓解失眠症状？"
    ensures !Text.Contains(q, "药") && !Text.Contains(q, "服用") && !Text.Contains(q, "副作用")
    ensures Text.Contains(q, "失眠")
  {
    assert q[4..6] == "失眠";
    assert Text.OccursAt(q, "失眠", 4);
    Text.AbsentFirstChar(q, "药");
    Text.AbsentFirstChar(q, "服用");
    Text.AbsentFirstChar(q, "副作用");
  }

  /** The typed-question rule files none of the four predefined questions as
      general, and the button rule agrees with it on every one of them except
      the side-effects question. */
  lemma PredefinedQuestionsClassified(question: string)
    requires question in PredefinedQuestions
    ensures Classify(question) != General
    ensures PredefinedCategoryAsWritten(question) == Classify(question) <==> question != PredefinedQuestions[2]
  {
    if question == PredefinedQuestions[0] {
      ColdMedicineQuestionKeywords(question);
    } else if question == PredefinedQuestions[1] {
      BloodPressureQuestionKeywords(question);
    } else if question == PredefinedQuestions[2] {
      PredefinedCategoryDisagrees(question);
    } else {
      InsomniaQuestionKeywords(question);
    }
  }

  /** What a property read on the answer table yields. */
  datatype TableValue = Answer(text: string) | InheritedMember(name: string)

  /** Names every plain JavaScript object inherits from `Object.prototype`;
      reading one of them off the answer table yields a function (or, for
      `__proto__`, the prototype object), not `undefined`. */
  const InheritedNames: set<string> := {
    "constructor", "__proto__", "hasOwnProperty", "isPrototypeOf",
    "propertyIsEnumerable", "toLocaleString", "toString", "valueOf",
    "__defineGetter__", "__defineSetter__", "__lookupGetter__", "__lookupSetter__"
  }

  /** `mockAIResponses[key]` as JavaScript evaluates it: an own entry, else an
      inherited member, else `undefined`. */
  function LookupAsWritten(key: string): (r: Option<TableValue>)
    ensures r.Some? && r.value.Answer? <==> key in Responses
    ensures r.Some? && r.value.InheritedMember? <==> key !in Responses && key in InheritedNames
  {
    if key in Responses then Some(Answer(Responses[key]))
    else if key in InheritedNames then Some(InheritedMember(key))
    else None
  }

  /** The reply text as written: whatever the lookup yields when it is truthy
      (every answer is a non-empty string, every inherited member is truthy),
      the fallback otherwise. */
  function ReplyAsWritten(key: string): (r: TableValue)
    ensures key !in InheritedNames ==> r == Answer(Reply(key))
    ensures key !in Responses && key in InheritedNames ==> r == InheritedMember(key)
  {
    var v := LookupAsWritten(key);
    if v.Some? then v.value else Answer(Fallback)
  }

  /** Typing `toString` gets the inherited method as the reply instead of
      the fallback text. */
  lemma InheritedNameAnswered()
    ensures ReplyAsWritten("toString") == InheritedMember("toString")
    ensures Reply("toString") == Fallback
  {
    assert "toString" !in Responses;
  }

  /** The message the user's question becomes: from the user, with neither a
      like nor a category. */
  function UserMessage(id: string, text: string, now: int): (m: Message)
    ensures m.sender == User && m.text == text && m.id == id && m.timestamp == now
    ensures m.liked == None && m.category == None
  {
    Message(id, text, User, now, None, None)
  }

  /** A reply the screen owes: one per question sent, each delivered a second
      later, in the order they were asked. */
  datatype PendingReply = FreeText(input: string) | Predefined(question: string)

  /** The assistant's message for a pending reply: for typed input, the
      answer to the trimmed text and the category of the input; for a
      predefined question, its own answer and the category its button gives. */
  function ReplyMessage(p: PendingReply, id: string, now: int): (m: Message)
    ensures m.sender == Ai && m.liked == None && m.id == id && m.timestamp == now
    ensures p.FreeText? ==> m.text == Reply(Text.Trim(p.input)) && m.category == Some(Classify(p.input))
    ensures p.Predefined? ==> m.text == Reply(p.question) && m.category == Some(PredefinedCategoryAsWritten(p.question))
  {
    match p
    case FreeText(input) => Message(id, Reply(Text.Trim(input)), Ai, now, None, Some(Classify(input)))
    case Predefined(q) => Message(id, Reply(q), Ai, now, None, Some(PredefinedCategoryAsWritten(q)))
  }

  /** A message counts as liked only when `liked` is present and true. */
  predicate IsLiked(m: Message) {
    m.liked == Some(true)
  }

  /** `handleLikeMessage`: the messages with `id` get `liked` set to the
      negation of whether they were liked and keep every other field; the
      others stay as they are, in place. */
  function ToggleLike(messages: seq<Message>, id: string): (r: seq<Message>)
    ensures |r| == |messages|
    ensures forall i :: 0 <= i < |r| ==>
      if messages[i].id == id
      then r[i] == messages[i].(liked := r[i].liked) && r[i].liked.Some? && IsLiked(r[i]) == !IsLiked(messages[i])
      else r[i] == messages[i]
  {
    Lists.ReplaceWhere(messages, (m: Message) => m.id == id,
      (m: Message) => m.(liked := Some(!IsLiked(m))))
  }

  /** Liking a message twice restores whether it is liked, and changes
      nothing else. */
  lemma ToggleLikeTwice(messages: seq<Message>, id: string)
    ensures var twice := ToggleLike(ToggleLike(messages, id), id);
      && |twice| == |messages|
      && forall i :: 0 <= i < |messages| ==>
           IsLiked(twice[i]) == IsLiked(messages[i]) && twice[i].(liked := messages[i].liked) == messages[i]
  {
  }

  /** The test `handleDeleteMessage` keeps a message by. */
  function KeepOthers(id: string): Message -> bool {
    (m: Message) => m.id != id
  }

  /** `handleDeleteMessage`: every message with `id` goes, every other one
      stays, in order and as often as it occurred. */
  function RemoveMessage(messages: seq<Message>, id: string): (r: seq<Message>)
    ensures Lists.IsSubsequence(r, messages)
    ensures forall i :: 0 <= i < |r| ==> r[i].id != id
    ensures forall x: Message :: x.id != id ==> multiset(r)[x] == multiset(messages)[x]
  {
    Lists.Filter(messages, KeepOthers(id))
  }

  /** Liking or deleting an id no message has changes nothing. */
  lemma UnknownIdChangesNothing(messages: seq<Message>, id: string)
    requires forall i :: 0 <= i < |messages| ==> messages[i].id != id
    ensures ToggleLike(messages, id) == messages
    ensures RemoveMessage(messages, id) == messages
  {
    Lists.FilterKeepsAll(messages, KeepOthers(id));
  }

  /** The screen's state: the transcript, the input box and the replies whose
      one-second timers have not fired yet, oldest first. */
  class ConsultationScreen {
    var messages: seq<Message>
    var inputText: string
    var pending: seq<PendingReply>

    /** Every pending predefined question is one of the four. */
    ghost predicate Valid()
      reads this
    {
      forall i :: 0 <= i < |pending| && pending[i].Predefined? ==> pending[i].question in PredefinedQuestions
    }

    /** The opening state: the greeting alone, an empty input box. */
    constructor (welcomeTime: int)
      ensures Valid()
      ensures messages == [Message("1", WelcomeText, Ai, welcomeTime, None, Some(General))]
      ensures inputText == "" && pending == []
    {
      messages := [Message("1", WelcomeText, Ai, welcomeTime, None, Some(General))];
      inputText := "";
      pending := [];
    }

    /** Typing into the input box. */
    method SetInput(text: string)
      modifies this`inputText
      ensures inputText == text
    {
      inputText := text;
    }

    /** `handleSendMessage`: blank input is ignored; otherwise the trimmed
        input is appended as the user's message, the box is cleared and a
        reply to the input as typed is scheduled. */
    method SendMessage(id: string, now: int)
      requires Valid()
      modifies this
      ensures Valid()
      ensures Text.Trim(old(inputText)) == [] ==>
        messages == old(messages) && inputText == old(inputText) && pending == old(pending)
      ensures Text.Trim(old(inputText)) != [] ==>
        && messages == old(messages) + [UserMessage(id, Text.Trim(old(inputText)), now)]
        && inputText == ""
        && pending == old(pending) + [FreeText(old(inputText))]
        && (|messages| <= 1 <==> old(messages) == [])
    {
      var question := Text.Trim(inputText);
      if question == [] {
        return;
      }
      messages := messages + [UserMessage(id, question, now)];
      pending := pending + [FreeText(inputText)];
      inputText := "";
    }

    /** `handleSendPredefinedQuestion`: the box is cleared, the question is
        appended as the user's message and its reply is scheduled. */
    method SendPredefinedQuestion(question: string, id: string, now: int)
      requires Valid() && question in PredefinedQuestions
      modifies this
      ensures Valid()
      ensures messages == old(messages) + [UserMessage(id, question, now)]
      ensures inputText == ""
      ensures pending == old(pending) + [Predefined(question)]
      ensures |messages| <= 1 <==> old(messages) == []
    {
      inputText := "";
      messages := messages + [UserMessage(id, question, now)];
      pending := pending + [Predefined(question)];
    }

    /** The oldest reply timer fires: the assistant's message is appended. */
    method DeliverReply(id: string, now: int)
      requires Valid() && pending != []
      modifies this`messages, this`pending
      ensures Valid()
      ensures messages == old(messages) + [ReplyMessage(old(pending)[0], id, now)]
      ensures pending == old(pending)[1..]
    {
      messages := messages + [ReplyMessage(pending[0], id, now)];
      pending := pending[1..];
    }

    /** `handleLikeMessage`. */
    method LikeMessage(id: string)
      modifies this`messages
      ensures messages == ToggleLike(old(messages), id)
    {
      messages := ToggleLike(messages, id);
    }

    /** `handleDeleteMessage`, once the deletion is confirmed. */
    method DeleteMessage(id: string)
      modifies this`messages
      ensures messages == RemoveMessage(old(messages), id)
    {
      messages := RemoveMessage(messages, id);
    }

    /** The predefined questions are offered while the transcript holds at
        most one message. */
    predicate ShowsPredefinedQuestions()
      reads this
    {
      |messages| <= 1
    }

    /** The send button is enabled when the trimmed input is not empty, that
        is, exactly when the input is not all whitespace. */
    function CanSend(): (b: bool)
      reads this
      ensures b <==> !Text.IsBlank(inputText)
    {
      Text.Trim(inputText) != []
    }
  }

  /** From the opening state the predefined questions are offered, and sending
      one of them hides them. */
  method PanelAfterPredefinedQuestion(welcomeTime: int, question: string, id: string, now: int)
    returns (before: bool, after: bool)
    requires question in PredefinedQuestions
    ensures before && !after
  {
    var screen := new ConsultationScreen(welcomeTime);
    before := screen.ShowsPredefinedQuestions();
    screen.SendPredefinedQuestion(question, id, now);
    after := screen.ShowsPredefinedQuestions();
  }

  /** From the opening state the predefined questions are offered; typing a
      question that is not all whitespace and sending it hides them, and
      typing only whitespace leaves them offered. */
  method PanelAfterTypedQuestion(welcomeTime: int, text: string, id: string, now: int)
    returns (before: bool, after: bool)
    ensures before
    ensures after <==> Text.IsBlank(text)
  {
    var screen := new ConsultationScreen(welcomeTime);
    before := screen.ShowsPredefinedQuestions();
    screen.SetInput(text);
    screen.SendMessage(id, now);
    after := screen.ShowsPredefinedQuestions();
  }
}
