/** The record types of types.ts that the parsers produce and the views consume.
    A field that TypeScript marks optional (`?:`) is an `Option`, `None` standing
    for `undefined`. */
module Types {
  import opened Optional

  /** One library entry: a video, e-book, lecture or document. */
  datatype ResourceItem = ResourceItem(
    id: string,
    title: string,
    description: string,
    thumbnailUrl: Option<string>,
    linkUrl: string,
    embedUrl: Option<string>,
    category: Option<string>,
    author: Option<string>,
    date: Option<string>,
    grade: Option<string>)

  /** `'multiple-choice' | 'text'`. */
  datatype QuestionType = MultipleChoice | FreeText

  datatype Question = Question(
    id: string,
    text: string,
    kind: QuestionType,
    options: Option<seq<string>>,
    correctAnswer: string,
    explanation: Option<string>)

  datatype Worksheet = Worksheet(
    id: string,
    title: string,
    subject: Option<string>,
    grade: Option<string>,
    questions: seq<Question>)
}
