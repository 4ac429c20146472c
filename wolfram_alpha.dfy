/** The parts of the Wolfram|Alpha client SDK that the screen reads: the outcome of
    `WAEngine.performQuery` and the result, pod, sub-pod and content-element values
    it returns. The SDK itself (query building, the network call) is not modelled;
    its outcome is an input of the screen's completion step. */
module WolframAlpha {

  datatype Option<+T> = None | Some(value: T)

  /** A content element of a sub-pod: plain text (`WAPlainText`) or anything else
      (image, sound, ...), which the screen ignores. */
  datatype Element = PlainText(text: string) | Other

  /** A sub-section of a pod, with its content elements in response order. */
  datatype SubPod = SubPod(contents: seq<Element>)

  /** One titled section of an answer. */
  datatype Pod = Pod(isError: bool, title: string, subpods: seq<SubPod>)

  /** The query result as the SDK reports it. */
  datatype QueryResult = QueryResult(isError: bool, errorMessage: string, isSuccess: bool, pods: seq<Pod>)

  /** What `performQuery` inside `runCatching` produced: a returned result, or a thrown
      exception together with its message, which may be null. */
  datatype QueryOutcome = Returned(result: QueryResult) | Threw(message: Option<string>)
}
