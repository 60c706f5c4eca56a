/** The post record that the blog page lists. */
module Posts {

  /** The two publishing platforms; the page's tabs filter on this field. */
  datatype Platform = LinkedIn | Medium

  /** One listed post: `date` is a calendar date string, `readTime` a label
      such as "5 min read". */
  datatype BlogPost = BlogPost(
    id: string,
    title: string,
    excerpt: string,
    date: string,
    platform: Platform,
    url: string,
    tags: seq<string>,
    readTime: string
  )
}
