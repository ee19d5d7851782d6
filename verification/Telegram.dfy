/** The protocol objects, reduced to what the synchroniser looks at. */
module Telegram {
  import opened PeerEntities

  datatype Message = Message(text: string, date: int)

  /** One update.  The constructors are the classes that IsPtsUpdate, IsChannelPtsUpdate and
      IsQtsUpdate tell apart; `malformed` is the error IsChannelPtsUpdate may report. */
  datatype TgUpdate =
    | Plain(kind: string)
    | PtsChanged
    | ChannelTooLong(channelID: int)
    | CommonPts(pts: int, ptsCount: int, msg: Message)
    | CommonQts(qts: int, msg: Message)
    | ChannelPts(channelID: int, pts: int, ptsCount: int, msg: Message, malformed: bool)

  datatype Combined = Combined(updates: seq<TgUpdate>, ents: Entities, date: int, seqNo: int, seqStart: int)

  datatype UpdatesClass =
    | TgUpdates(updates: seq<TgUpdate>, ents: Entities, date: int, seqNo: int)
    | TgUpdatesCombined(combined: Combined)
    | TgUpdateShort(update: TgUpdate, date: int)
    | TgUpdatesTooLong

  /** The user state, as the server reports it and as the storage keeps it. */
  datatype State = State(pts: int, qts: int, date: int, seqNo: int)

  /** The answers to updates.getDifference; NoDifference stands for an error. */
  datatype Difference =
    | Difference(common: seq<Message>, secret: seq<Message>, others: seq<TgUpdate>, ents: Entities, state: State)
    | DifferenceEmpty(date: int, seqNo: int)
    | DifferenceSlice(common: seq<Message>, secret: seq<Message>, others: seq<TgUpdate>, ents: Entities, state: State)
    | DifferenceTooLong(pts: int)
    | NoDifference
}
