/** Values shared by the mapper and the reducer of the genre-combination job. */
module Base {

  /** An optional value; None stands for Java's null and for a failed parse. */
  datatype Option<+T> = None | Some(value: T)

  /** One (Text, IntWritable) pair written to the Hadoop context. */
  datatype KeyValue = KeyValue(key: string, value: int)
}
